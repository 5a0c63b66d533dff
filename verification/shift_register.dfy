// A checksum register stepped one bit at a time, whatever its width and its
// direction.
module ShiftRegister {
  // One bit step shifts the register and folds the polynomial in if the bit
  // that leaves was set (`top`); `folded` tells a folded register from one
  // that was only shifted. `enter(i, b)` puts a byte where it waits while `i`
  // others go first; `byteAt(i, x)` is what waits there. The register is
  // `width` bytes wide.
  datatype Engine<!T> = Engine(
    top: T -> bool, shift: T -> T, fold: T -> T, folded: T -> bool,
    plus: (T, T) -> T, enter: (nat, bv8) -> T, byteAt: (nat, T) -> bv8, width: nat)

  function BitStep<T>(e: Engine<T>, x: T): T {
    if e.top(x) then e.fold(e.shift(x)) else e.shift(x)
  }

  function Steps<T>(e: Engine<T>, x: T, n: nat): T {
    if n == 0 then x else BitStep(e, Steps(e, x, n - 1))
  }

  // The register after one more byte.
  function TakeByte<T>(e: Engine<T>, crc: T, b: bv8): T {
    Steps(e, e.plus(crc, e.enter(0, b)), 8)
  }

  // The register after all of `data`.
  function Take<T>(e: Engine<T>, data: seq<bv8>, crc: T): T {
    if data == [] then crc else Take(e, data[1..], TakeByte(e, crc, data[0]))
  }

  // The register with the bytes of `data` added side by side, `i` others
  // going before them.
  function Load<T>(e: Engine<T>, x: T, data: seq<bv8>, i: nat): T {
    if data == [] then x else Load(e, e.plus(x, e.enter(i, data[0])), data[1..], i + 1)
  }

  method UpdateByte<T>(e: Engine<T>, crc: T, b: bv8) returns (r: T)
    ensures r == TakeByte(e, crc, b)
  {
    var start := e.plus(crc, e.enter(0, b));
    r := start;
    for bit := 0 to 8
      invariant r == Steps(e, start, bit)
    {
      r := if e.top(r) then e.fold(e.shift(r)) else e.shift(r);
    }
  }

  method Update<T>(e: Engine<T>, data: seq<bv8>, crc: T) returns (r: T)
    ensures r == Take(e, data, crc)
  {
    r := crc;
    for i := 0 to |data|
      invariant Take(e, data[i..], r) == Take(e, data, crc)
    {
      var next := UpdateByte(e, r, data[i]);
      assert data[i..][1..] == data[i + 1..];
      r := next;
    }
  }

  // The laws an engine obeys, each named so that a proof can ask for the one
  // instance it needs.

  ghost predicate Cancels<T>(e: Engine<T>, x: T, y: T, z: T) {
    e.plus(y, x) == e.plus(z, x) ==> y == z
  }

  ghost predicate Reversible<T>(e: Engine<T>, x: T, y: T) {
    && !e.folded(e.shift(x)) && e.folded(e.fold(e.shift(x)))
    && (e.fold(x) == e.fold(y) ==> x == y)
    && (e.shift(x) == e.shift(y) && e.top(x) == e.top(y) ==> x == y)
  }

  ghost predicate ShiftsApart<T>(e: Engine<T>, x: T, d: T) {
    e.shift(e.plus(x, d)) == e.plus(e.shift(x), e.shift(d))
  }

  ghost predicate FoldsApart<T>(e: Engine<T>, x: T, d: T) {
    e.fold(e.plus(x, d)) == e.plus(e.fold(x), d)
  }

  ghost predicate KeepsTop<T>(e: Engine<T>, x: T, d: T) {
    !e.top(d) ==> e.top(e.plus(x, d)) == e.top(x)
  }

  // A waiting part, `n` bit steps on.
  function Slid<T>(e: Engine<T>, d: T, n: nat): T {
    if n == 0 then d else e.shift(Slid(e, d, n - 1))
  }

  // The part `d` waits eight steps without ever reaching `top`.
  ghost predicate Waits<T>(e: Engine<T>, d: T) {
    forall n: nat {:trigger Slid(e, d, n)} :: n < 8 ==> !e.top(Slid(e, d, n))
  }

  // A waiting byte slides to the next place.
  ghost predicate Slides<T>(e: Engine<T>, i: nat, b: bv8) {
    i + 1 < e.width ==> Waits(e, e.enter(i + 1, b)) && Slid(e, e.enter(i + 1, b), 8) == e.enter(i, b)
  }

  // Each place tells the bytes put there apart, and keeps no other's.
  ghost predicate Holds<T>(e: Engine<T>, x: T, i: nat, a: bv8, b: bv8) {
    i < e.width && e.byteAt(i, e.plus(x, e.enter(i, a))) == e.byteAt(i, e.plus(x, e.enter(i, b))) ==> a == b
  }

  ghost predicate Keeps<T>(e: Engine<T>, x: T, i: nat, j: nat, b: bv8) {
    i < j < e.width ==> e.byteAt(i, e.plus(x, e.enter(j, b))) == e.byteAt(i, x)
  }

  ghost predicate Lawful<T(!new)>(e: Engine<T>) {
    && (forall x, y, z :: Cancels(e, x, y, z))
    && (forall x, y :: Reversible(e, x, y))
    && (forall x, d :: ShiftsApart(e, x, d))
    && (forall x, d :: FoldsApart(e, x, d))
    && (forall x, d :: KeepsTop(e, x, d))
    && (forall i: nat, b :: Slides(e, i, b))
    && (forall x, i: nat, a, b :: Holds(e, x, i, a, b))
    && (forall x, i: nat, j: nat, b :: Keeps(e, x, i, j, b))
  }

  lemma SlidChain<T>(e: Engine<T>, d0: T, d1: T, d2: T, d3: T, d4: T, d5: T, d6: T, d7: T, d8: T)
    requires d1 == e.shift(d0) && d2 == e.shift(d1) && d3 == e.shift(d2) && d4 == e.shift(d3)
    requires d5 == e.shift(d4) && d6 == e.shift(d5) && d7 == e.shift(d6) && d8 == e.shift(d7)
    requires !e.top(d0) && !e.top(d1) && !e.top(d2) && !e.top(d3)
    requires !e.top(d4) && !e.top(d5) && !e.top(d6) && !e.top(d7)
    ensures Waits(e, d0) && Slid(e, d0, 8) == d8
  {
    assert Slid(e, d0, 0) == d0 && Slid(e, d0, 1) == d1 && Slid(e, d0, 2) == d2 && Slid(e, d0, 3) == d3;
    assert Slid(e, d0, 4) == d4 && Slid(e, d0, 5) == d5 && Slid(e, d0, 6) == d6 && Slid(e, d0, 7) == d7;
  }

  lemma {:induction false} StepsAdd<T>(e: Engine<T>, x: T, m: nat, n: nat)
    ensures Steps(e, Steps(e, x, m), n) == Steps(e, x, m + n)
  {
    if n > 0 {
      StepsAdd(e, x, m, n - 1);
    }
  }

  lemma {:induction false} StepsInjective<T(!new)>(e: Engine<T>, x: T, y: T, n: nat)
    requires Lawful(e)
    requires Steps(e, x, n) == Steps(e, y, n)
    ensures x == y
  {
    if n > 0 {
      var a, b := Steps(e, x, n - 1), Steps(e, y, n - 1);
      assert Reversible(e, a, b) && Reversible(e, b, a) && Reversible(e, e.shift(a), e.shift(b));
      StepsInjective(e, x, y, n - 1);
    }
  }

  lemma {:induction false} TakeAppend<T>(e: Engine<T>, a: seq<bv8>, b: seq<bv8>, crc: T)
    ensures Take(e, a + b, crc) == Take(e, b, Take(e, a, crc))
  {
    if a == [] {
      assert a + b == b;
    } else {
      assert (a + b)[1..] == a[1..] + b;
      TakeAppend(e, a[1..], b, TakeByte(e, crc, a[0]));
    }
  }

  // From different registers, the same bytes lead to different registers.
  lemma {:induction false} TakeKeepsApart<T(!new)>(e: Engine<T>, data: seq<bv8>, x: T, y: T)
    requires Lawful(e) && x != y
    ensures Take(e, data, x) != Take(e, data, y)
  {
    if data != [] {
      var b := e.enter(0, data[0]);
      assert Cancels(e, b, x, y);
      if TakeByte(e, x, data[0]) == TakeByte(e, y, data[0]) {
        StepsInjective(e, e.plus(x, b), e.plus(y, b), 8);
      }
      TakeKeepsApart(e, data[1..], TakeByte(e, x, data[0]), TakeByte(e, y, data[0]));
    }
  }

  lemma BitCarries<T(!new)>(e: Engine<T>, x: T, d: T)
    requires Lawful(e) && !e.top(d)
    ensures BitStep(e, e.plus(x, d)) == e.plus(BitStep(e, x), e.shift(d))
  {
    assert ShiftsApart(e, x, d) && KeepsTop(e, x, d) && FoldsApart(e, e.shift(x), e.shift(d));
  }

  // A waiting byte comes through eight steps untouched, one place nearer.
  lemma ByteCarries<T(!new)>(e: Engine<T>, x: T, i: nat, b: bv8)
    requires Lawful(e) && i + 1 < e.width
    ensures Steps(e, e.plus(x, e.enter(i + 1, b)), 8) == e.plus(Steps(e, x, 8), e.enter(i, b))
  {
    assert Slides(e, i, b);
    var y, p := e.plus(x, e.enter(i + 1, b)), e.enter(i + 1, b);
    for n := 0 to 8
      invariant Steps(e, y, n) == e.plus(Steps(e, x, n), p)
      invariant p == Slid(e, e.enter(i + 1, b), n)
    {
      BitCarries(e, Steps(e, x, n), p);
      p := e.shift(p);
    }
  }

  lemma {:induction false} LoadCarries<T(!new)>(e: Engine<T>, x: T, data: seq<bv8>, i: nat)
    requires Lawful(e) && i + 1 + |data| <= e.width
    ensures Steps(e, Load(e, x, data, i + 1), 8) == Load(e, Steps(e, x, 8), data, i)
  {
    if data != [] {
      ByteCarries(e, x, i, data[0]);
      LoadCarries(e, e.plus(x, e.enter(i + 1, data[0])), data[1..], i + 1);
    }
  }

  // Up to a register's worth of bytes may as well go in all at once.
  lemma {:induction false} TakeAtOnce<T(!new)>(e: Engine<T>, data: seq<bv8>, crc: T)
    requires Lawful(e) && |data| <= e.width
    ensures Take(e, data, crc) == Steps(e, Load(e, crc, data, 0), 8 * |data|)
  {
    if data != [] {
      var rest, x := data[1..], e.plus(crc, e.enter(0, data[0]));
      var loaded := Load(e, x, rest, 1);
      TakeAtOnce(e, rest, Steps(e, x, 8));
      LoadCarries(e, x, rest, 0);
      StepsAdd(e, loaded, 8, 8 * |rest|);
      assert Take(e, data, crc) == Take(e, rest, Steps(e, x, 8));
      assert 8 + 8 * |rest| == 8 * |data|;
    }
  }

  // Bytes loaded further back leave the place `i` alone.
  lemma {:induction false} LoadKeeps<T(!new)>(e: Engine<T>, x: T, data: seq<bv8>, i: nat, j: nat)
    requires Lawful(e) && i < j && j + |data| <= e.width
    ensures e.byteAt(i, Load(e, x, data, j)) == e.byteAt(i, x)
  {
    if data != [] {
      assert Keeps(e, x, i, j, data[0]);
      LoadKeeps(e, e.plus(x, e.enter(j, data[0])), data[1..], i, j + 1);
    }
  }

  lemma {:induction false} LoadInjective<T(!new)>(e: Engine<T>, x: T, a: seq<bv8>, b: seq<bv8>, i: nat)
    requires Lawful(e) && |a| == |b| && i + |a| <= e.width
    requires Load(e, x, a, i) == Load(e, x, b, i)
    ensures a == b
  {
    if a != [] {
      var xa, xb := e.plus(x, e.enter(i, a[0])), e.plus(x, e.enter(i, b[0]));
      LoadKeeps(e, xa, a[1..], i, i + 1);
      LoadKeeps(e, xb, b[1..], i, i + 1);
      assert Holds(e, x, i, a[0], b[0]);
      LoadInjective(e, xa, a[1..], b[1..], i + 1);
      assert a == [a[0]] + a[1..] && b == [b[0]] + b[1..];
    }
  }

  // Two strings alike except inside a window no wider than the register.
  lemma TakeDetectsBurst<T(!new)>(e: Engine<T>, before: seq<bv8>, window: seq<bv8>, other: seq<bv8>, after: seq<bv8>,
                                  crc: T)
    requires Lawful(e) && |window| == |other| <= e.width && window != other
    ensures Take(e, before + window + after, crc) != Take(e, before + other + after, crc)
  {
    var c := Take(e, before, crc);
    TakeAppend(e, before + window, after, crc);
    TakeAppend(e, before, window, crc);
    TakeAppend(e, before + other, after, crc);
    TakeAppend(e, before, other, crc);
    TakeAtOnce(e, window, c);
    TakeAtOnce(e, other, c);
    if Take(e, window, c) == Take(e, other, c) {
      StepsInjective(e, Load(e, c, window, 0), Load(e, c, other, 0), 8 * |window|);
      LoadInjective(e, c, window, other, 0);
    }
    TakeKeepsApart(e, after, Take(e, window, c), Take(e, other, c));
  }
}
