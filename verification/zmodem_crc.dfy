// The two checksums of the ZMODEM engine, computed bit by bit as the program
// does, and what they promise: a change confined to two neighbouring bytes
// always changes the 16-bit checksum, and one confined to four neighbouring
// bytes always changes the 32-bit one.
module ZmodemCrc {
  import opened ShiftRegister

  // ---- The 16-bit checksum: high bit first ----

  predicate Top16(x: bv16) { x & 0x8000 != 0 }

  function Shift16(x: bv16): bv16 { x << 1 }

  function Fold16(x: bv16): bv16 { x ^ 0x1021 }

  predicate Folded16(x: bv16) { x & 1 != 0 }

  function Xor16(x: bv16, y: bv16): bv16 { x ^ y }

  function Enter16(i: nat, b: bv8): bv16 {
    if i == 0 then (b as bv16) << 8 else b as bv16
  }

  function ByteAt16(i: nat, x: bv16): bv8 {
    if i == 0 then (x >> 8) as bv8 else (x & 0xFF) as bv8
  }

  const SIXTEEN: Engine<bv16> := Engine(Top16, Shift16, Fold16, Folded16, Xor16, Enter16, ByteAt16, 2)

  function Crc16(data: seq<bv8>, crc: bv16): bv16 {
    Take(SIXTEEN, data, crc)
  }

  // ---- The 32-bit checksum: low bit first ----

  predicate Top32(x: bv32) { x & 1 != 0 }

  function Shift32(x: bv32): bv32 { x >> 1 }

  function Fold32(x: bv32): bv32 { x ^ 0xEDB88320 }

  predicate Folded32(x: bv32) { x & 0x8000_0000 != 0 }

  function Xor32(x: bv32, y: bv32): bv32 { x ^ y }

  function Enter32(i: nat, b: bv8): bv32 {
    if i == 0 then b as bv32
    else if i == 1 then (b as bv32) << 8
    else if i == 2 then (b as bv32) << 16
    else (b as bv32) << 24
  }

  function ByteAt32(i: nat, x: bv32): bv8 {
    if i == 0 then (x & 0xFF) as bv8
    else if i == 1 then ((x >> 8) & 0xFF) as bv8
    else if i == 2 then ((x >> 16) & 0xFF) as bv8
    else ((x >> 24) & 0xFF) as bv8
  }

  const THIRTY_TWO: Engine<bv32> := Engine(Top32, Shift32, Fold32, Folded32, Xor32, Enter32, ByteAt32, 4)

  const ALL_ONES: bv32 := 0xFFFF_FFFF

  function Inverted(x: bv32): bv32 { !x }

  // The checksum as sent: the register starts at all ones and is inverted.
  function Crc32(data: seq<bv8>): bv32 {
    Inverted(Take(THIRTY_TWO, data, ALL_ONES))
  }

  // ---- Both are lawful ----

  lemma Cancels16(x: bv16, y: bv16, z: bv16)
    ensures Cancels(SIXTEEN, x, y, z)
  {
  }

  lemma ShiftKeeps16(x: bv16, y: bv16)
    ensures x << 1 == y << 1 && x & 0x8000 == 0 && y & 0x8000 == 0 ==> x == y
    ensures x << 1 == y << 1 && x & 0x8000 != 0 && y & 0x8000 != 0 ==> x == y
  {
  }

  lemma FoldMarks16(x: bv16, y: bv16)
    ensures (x << 1) & 1 == 0 && ((x << 1) ^ 0x1021) & 1 != 0
    ensures x ^ 0x1021 == y ^ 0x1021 ==> x == y
  {
  }

  lemma Reversible16(x: bv16, y: bv16)
    ensures Reversible(SIXTEEN, x, y)
  {
    ShiftKeeps16(x, y);
    FoldMarks16(x, y);
  }

  lemma ShiftsApart16(x: bv16, d: bv16)
    ensures ShiftsApart(SIXTEEN, x, d)
  {
  }

  lemma FoldsApart16(x: bv16, d: bv16)
    ensures FoldsApart(SIXTEEN, x, d)
  {
  }

  lemma KeepsTop16(x: bv16, d: bv16)
    ensures KeepsTop(SIXTEEN, x, d)
  {
    if Top16(d) {
    } else {
      TopBit16(x, d);
    }
  }

  lemma TopBit16(x: bv16, d: bv16)
    requires d & 0x8000 == 0
    ensures (x ^ d) & 0x8000 == x & 0x8000
  {
  }

  lemma SlidBits16(d: bv16)
    requires d & 0xFF00 == 0
    ensures d & 0x8000 == 0 && (d << 1) & 0x8000 == 0 && (d << 2) & 0x8000 == 0 && (d << 3) & 0x8000 == 0
    ensures (d << 4) & 0x8000 == 0 && (d << 5) & 0x8000 == 0 && (d << 6) & 0x8000 == 0 && (d << 7) & 0x8000 == 0
  {
  }

  lemma ShiftsAdd16(d: bv16)
    ensures (d << 1) << 1 == d << 2 && (d << 2) << 1 == d << 3 && (d << 3) << 1 == d << 4
    ensures (d << 4) << 1 == d << 5 && (d << 5) << 1 == d << 6 && (d << 6) << 1 == d << 7
    ensures (d << 7) << 1 == d << 8
  {
  }

  lemma Slid16(d: bv16)
    requires d & 0xFF00 == 0
    ensures Waits(SIXTEEN, d) && Slid(SIXTEEN, d, 8) == d << 8
  {
    SlidBits16(d);
    ShiftsAdd16(d);
    SlidChain(SIXTEEN, d, d << 1, d << 2, d << 3, d << 4, d << 5, d << 6, d << 7, d << 8);
  }

  lemma Slides16(i: nat, b: bv8)
    ensures Slides(SIXTEEN, i, b)
  {
    if i == 0 {
      Waiting16(b);
      Slid16(b as bv16);
    }
  }

  lemma Waiting16(b: bv8)
    ensures (b as bv16) & 0xFF00 == 0
  {
  }

  lemma HeldBits16(x: bv16, a: bv8, b: bv8)
    ensures (x ^ ((a as bv16) << 8)) >> 8 == (x ^ ((b as bv16) << 8)) >> 8 ==> a == b
    ensures (x ^ (a as bv16)) & 0xFF == (x ^ (b as bv16)) & 0xFF ==> a == b
  {
  }

  lemma Holds16(x: bv16, i: nat, a: bv8, b: bv8)
    ensures Holds(SIXTEEN, x, i, a, b)
  {
    HeldBits16(x, a, b);
  }

  lemma KeptBits16(x: bv16, b: bv8)
    ensures (x ^ (b as bv16)) >> 8 == x >> 8
  {
  }

  lemma Keeps16(x: bv16, i: nat, j: nat, b: bv8)
    ensures Keeps(SIXTEEN, x, i, j, b)
  {
    if i == 0 && j == 1 {
      KeptBits16(x, b);
    }
  }

  lemma SixteenIsLawful()
    ensures Lawful(SIXTEEN)
  {
    forall x, y, z ensures Cancels(SIXTEEN, x, y, z) {
      Cancels16(x, y, z);
    }
    forall x, y ensures Reversible(SIXTEEN, x, y) {
      Reversible16(x, y);
    }
    forall x, d ensures ShiftsApart(SIXTEEN, x, d) {
      ShiftsApart16(x, d);
    }
    forall x, d ensures FoldsApart(SIXTEEN, x, d) {
      FoldsApart16(x, d);
    }
    forall x, d ensures KeepsTop(SIXTEEN, x, d) {
      KeepsTop16(x, d);
    }
    forall i: nat, b ensures Slides(SIXTEEN, i, b) {
      Slides16(i, b);
    }
    forall x, i: nat, a, b ensures Holds(SIXTEEN, x, i, a, b) {
      Holds16(x, i, a, b);
    }
    forall x, i: nat, j: nat, b ensures Keeps(SIXTEEN, x, i, j, b) {
      Keeps16(x, i, j, b);
    }
  }

  lemma Cancels32(x: bv32, y: bv32, z: bv32)
    ensures Cancels(THIRTY_TWO, x, y, z)
  {
  }

  lemma ShiftKeeps32(x: bv32, y: bv32)
    ensures x >> 1 == y >> 1 && x & 1 == 0 && y & 1 == 0 ==> x == y
    ensures x >> 1 == y >> 1 && x & 1 != 0 && y & 1 != 0 ==> x == y
  {
  }

  lemma FoldMarks32(x: bv32, y: bv32)
    ensures (x >> 1) & 0x8000_0000 == 0 && ((x >> 1) ^ 0xEDB88320) & 0x8000_0000 != 0
    ensures x ^ 0xEDB88320 == y ^ 0xEDB88320 ==> x == y
  {
  }

  lemma Reversible32(x: bv32, y: bv32)
    ensures Reversible(THIRTY_TWO, x, y)
  {
    ShiftKeeps32(x, y);
    FoldMarks32(x, y);
  }

  lemma ShiftsApart32(x: bv32, d: bv32)
    ensures ShiftsApart(THIRTY_TWO, x, d)
  {
  }

  lemma FoldsApart32(x: bv32, d: bv32)
    ensures FoldsApart(THIRTY_TWO, x, d)
  {
  }

  lemma KeepsTop32(x: bv32, d: bv32)
    ensures KeepsTop(THIRTY_TWO, x, d)
  {
    if Top32(d) {
    } else {
      TopBit32(x, d);
    }
  }

  lemma TopBit32(x: bv32, d: bv32)
    requires d & 1 == 0
    ensures (x ^ d) & 1 == x & 1
  {
  }

  lemma SlidBits32(d: bv32)
    requires d & 0xFF == 0
    ensures d & 1 == 0 && (d >> 1) & 1 == 0 && (d >> 2) & 1 == 0 && (d >> 3) & 1 == 0
    ensures (d >> 4) & 1 == 0 && (d >> 5) & 1 == 0 && (d >> 6) & 1 == 0 && (d >> 7) & 1 == 0
  {
  }

  lemma ShiftsAdd32(d: bv32)
    ensures (d >> 1) >> 1 == d >> 2 && (d >> 2) >> 1 == d >> 3 && (d >> 3) >> 1 == d >> 4
    ensures (d >> 4) >> 1 == d >> 5 && (d >> 5) >> 1 == d >> 6 && (d >> 6) >> 1 == d >> 7
    ensures (d >> 7) >> 1 == d >> 8
  {
  }

  lemma Slid32(d: bv32)
    requires d & 0xFF == 0
    ensures Waits(THIRTY_TWO, d) && Slid(THIRTY_TWO, d, 8) == d >> 8
  {
    SlidBits32(d);
    ShiftsAdd32(d);
    SlidChain(THIRTY_TWO, d, d >> 1, d >> 2, d >> 3, d >> 4, d >> 5, d >> 6, d >> 7, d >> 8);
  }

  lemma WaitingSecond32(b: bv8)
    ensures ((b as bv32) << 8) & 0xFF == 0 && ((b as bv32) << 8) >> 8 == b as bv32
  {
  }

  lemma WaitingThird32(b: bv8)
    ensures ((b as bv32) << 16) & 0xFF == 0 && ((b as bv32) << 16) >> 8 == (b as bv32) << 8
  {
  }

  lemma WaitingLast32(b: bv8)
    ensures ((b as bv32) << 24) & 0xFF == 0 && ((b as bv32) << 24) >> 8 == (b as bv32) << 16
  {
  }

  lemma SlidesToFirst32(b: bv8)
    ensures Slides(THIRTY_TWO, 0, b)
  {
    WaitingSecond32(b);
    Slid32((b as bv32) << 8);
  }

  lemma SlidesToSecond32(b: bv8)
    ensures Slides(THIRTY_TWO, 1, b)
  {
    WaitingThird32(b);
    Slid32((b as bv32) << 16);
  }

  lemma SlidesToThird32(b: bv8)
    ensures Slides(THIRTY_TWO, 2, b)
  {
    WaitingLast32(b);
    Slid32((b as bv32) << 24);
  }

  lemma Slides32(i: nat, b: bv8)
    ensures Slides(THIRTY_TWO, i, b)
  {
    SlidesToFirst32(b);
    SlidesToSecond32(b);
    SlidesToThird32(b);
  }

  lemma HeldFirst32(x: bv32, a: bv8, b: bv8)
    ensures (x ^ (a as bv32)) & 0xFF == (x ^ (b as bv32)) & 0xFF ==> a == b
  {
  }

  lemma HeldSecond32(x: bv32, a: bv8, b: bv8)
    ensures ((x ^ ((a as bv32) << 8)) >> 8) & 0xFF == ((x ^ ((b as bv32) << 8)) >> 8) & 0xFF ==> a == b
  {
  }

  lemma HeldThird32(x: bv32, a: bv8, b: bv8)
    ensures ((x ^ ((a as bv32) << 16)) >> 16) & 0xFF == ((x ^ ((b as bv32) << 16)) >> 16) & 0xFF ==> a == b
  {
  }

  lemma HeldLast32(x: bv32, a: bv8, b: bv8)
    ensures ((x ^ ((a as bv32) << 24)) >> 24) & 0xFF == ((x ^ ((b as bv32) << 24)) >> 24) & 0xFF ==> a == b
  {
  }

  lemma Holds32(x: bv32, i: nat, a: bv8, b: bv8)
    ensures Holds(THIRTY_TWO, x, i, a, b)
  {
    if i == 0 {
      HeldFirst32(x, a, b);
    } else if i == 1 {
      HeldSecond32(x, a, b);
    } else if i == 2 {
      HeldThird32(x, a, b);
    } else if i == 3 {
      HeldLast32(x, a, b);
    }
  }

  lemma KeptBits32(x: bv32, b: bv8)
    ensures (x ^ ((b as bv32) << 8)) & 0xFF == x & 0xFF
    ensures (x ^ ((b as bv32) << 16)) & 0xFF == x & 0xFF
    ensures (x ^ ((b as bv32) << 24)) & 0xFF == x & 0xFF
    ensures ((x ^ ((b as bv32) << 16)) >> 8) & 0xFF == (x >> 8) & 0xFF
    ensures ((x ^ ((b as bv32) << 24)) >> 8) & 0xFF == (x >> 8) & 0xFF
    ensures ((x ^ ((b as bv32) << 24)) >> 16) & 0xFF == (x >> 16) & 0xFF
  {
  }

  lemma Keeps32(x: bv32, i: nat, j: nat, b: bv8)
    ensures Keeps(THIRTY_TWO, x, i, j, b)
  {
    KeptBits32(x, b);
    if i == 0 && j == 1 {
    } else if i == 0 && j == 2 {
    } else if i == 0 && j == 3 {
    } else if i == 1 && j == 2 {
    } else if i == 1 && j == 3 {
    } else if i == 2 && j == 3 {
    }
  }

  lemma ThirtyTwoIsLawful()
    ensures Lawful(THIRTY_TWO)
  {
    forall x, y, z ensures Cancels(THIRTY_TWO, x, y, z) {
      Cancels32(x, y, z);
    }
    forall x, y ensures Reversible(THIRTY_TWO, x, y) {
      Reversible32(x, y);
    }
    forall x, d ensures ShiftsApart(THIRTY_TWO, x, d) {
      ShiftsApart32(x, d);
    }
    forall x, d ensures FoldsApart(THIRTY_TWO, x, d) {
      FoldsApart32(x, d);
    }
    forall x, d ensures KeepsTop(THIRTY_TWO, x, d) {
      KeepsTop32(x, d);
    }
    forall i: nat, b ensures Slides(THIRTY_TWO, i, b) {
      Slides32(i, b);
    }
    forall x, i: nat, a, b ensures Holds(THIRTY_TWO, x, i, a, b) {
      Holds32(x, i, a, b);
    }
    forall x, i: nat, j: nat, b ensures Keeps(THIRTY_TWO, x, i, j, b) {
      Keeps32(x, i, j, b);
    }
  }

  // ---- Bursts ----

  // Two strings alike except inside two neighbouring bytes.
  lemma Crc16DetectsBurst(before: seq<bv8>, window: seq<bv8>, other: seq<bv8>, after: seq<bv8>, crc: bv16)
    requires |window| == |other| <= 2 && window != other
    ensures Crc16(before + window + after, crc) != Crc16(before + other + after, crc)
  {
    SixteenIsLawful();
    TakeDetectsBurst(SIXTEEN, before, window, other, after, crc);
  }

  // Two strings alike except inside four neighbouring bytes.
  lemma Crc32DetectsBurst(before: seq<bv8>, window: seq<bv8>, other: seq<bv8>, after: seq<bv8>)
    requires |window| == |other| <= 4 && window != other
    ensures Crc32(before + window + after) != Crc32(before + other + after)
  {
    ThirtyTwoIsLawful();
    TakeDetectsBurst(THIRTY_TWO, before, window, other, after, ALL_ONES);
    NotApart(Take(THIRTY_TWO, before + window + after, ALL_ONES), Take(THIRTY_TWO, before + other + after, ALL_ONES));
  }

  lemma NotApart(x: bv32, y: bv32)
    ensures Inverted(x) == Inverted(y) ==> x == y
  {
  }

  method ZmodemCrc16(data: seq<bv8>, crc: bv16) returns (r: bv16)
    ensures r == Crc16(data, crc)
  {
    r := Update(SIXTEEN, data, crc);
  }

  method ZmodemCrc32(data: seq<bv8>) returns (r: bv32)
    ensures r == Crc32(data)
  {
    r := Update(THIRTY_TWO, data, ALL_ONES);
    r := Inverted(r);
  }
}
