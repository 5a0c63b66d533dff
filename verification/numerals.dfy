// Numbers in text, as printf writes them and a reader adds them up again.
module Numerals {
  import opened Bytes

  const ZERO: Byte := 0x30

  // Numbers are written in decimal or in octal.
  datatype Base = Octal | Decimal {
    function Size(): nat {
      if Octal? then 8 else 10
    }

    function Times(n: nat): nat {
      if Octal? then 8 * n else 10 * n
    }

    function Quotient(n: nat): nat {
      if Octal? then n / 8 else n / 10
    }

    function Remainder(n: nat): (r: nat)
      ensures r < Size() && n == Times(Quotient(n)) + r
    {
      if Octal? then n % 8 else n % 10
    }
  }

  // A number as printf writes it.
  function Digits(n: nat, base: Base): (d: seq<Byte>)
    ensures d != []
    ensures forall i :: 0 <= i < |d| ==> IsDigit(d[i], base)
    decreases n
  {
    var last := [ZERO + base.Remainder(n)];
    if base.Quotient(n) == 0 then last else Digits(base.Quotient(n), base) + last
  }

  predicate IsDigit(b: Byte, base: Base) {
    ZERO <= b < ZERO + base.Size()
  }

  // The value of a run of digits, as scanf adds it up.
  function Value(d: seq<Byte>, base: Base): nat
    requires forall i :: 0 <= i < |d| ==> IsDigit(d[i], base)
  {
    if d == [] then 0
    else
      assert IsDigit(d[|d| - 1], base);
      base.Times(Value(d[..|d| - 1], base)) + (d[|d| - 1] - ZERO)
  }

  function CountDigits(text: seq<Byte>, base: Base): (n: nat)
    ensures n <= |text| && forall i :: 0 <= i < n ==> IsDigit(text[i], base)
    ensures n < |text| ==> !IsDigit(text[n], base)
  {
    if text == [] || !IsDigit(text[0], base) then 0 else 1 + CountDigits(text[1..], base)
  }

  lemma {:induction false} DigitsValue(n: nat, base: Base)
    ensures Value(Digits(n, base), base) == n
    decreases n
  {
    var quotient, last := base.Quotient(n), ZERO + base.Remainder(n);
    if quotient == 0 {
      ValueOfMore([], last, base);
      assert [] + [last] == [last];
    } else {
      DigitsValue(quotient, base);
      ValueOfMore(Digits(quotient, base), last, base);
    }
  }

  lemma ValueOfMore(d: seq<Byte>, last: Byte, base: Base)
    requires IsDigit(last, base) && forall i :: 0 <= i < |d| ==> IsDigit(d[i], base)
    ensures Value(d + [last], base) == base.Times(Value(d, base)) + (last - ZERO)
  {
    assert (d + [last])[..|d|] == d;
  }

  lemma {:induction false} CountsAllDigits(d: seq<Byte>, rest: seq<Byte>, base: Base)
    requires forall i :: 0 <= i < |d| ==> IsDigit(d[i], base)
    requires rest != [] && !IsDigit(rest[0], base)
    ensures CountDigits(d + rest, base) == |d|
  {
    if d == [] {
      assert d + rest == rest;
    } else {
      assert (d + rest)[1..] == d[1..] + rest;
      CountsAllDigits(d[1..], rest, base);
    }
  }
}
