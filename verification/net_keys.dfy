// When two logs hold the same check-ins: their keys, sorted, are equal. A key
// is one string, so sorted keys are equal exactly when each key occurs as
// often in one log as in the other.
module CheckInKeys {
  datatype CheckIn = CheckIn(
    session: int, callsign: string, name: string, report: string, remarks: string, comment: string, role: int,
    number: int, at: int)

  const SEPARATOR: char := '\U{1f}'

  function UpperChar(c: char): char {
    if 'a' <= c <= 'z' then (c as int - 32) as char else c
  }

  function Upper(s: string): (u: string)
    ensures |u| == |s| && forall i :: 0 <= i < |s| ==> u[i] == UpperChar(s[i])
  {
    seq(|s|, i requires 0 <= i < |s| => UpperChar(s[i]))
  }

  function Number(n: int): (s: string)
    ensures SEPARATOR !in s && s != []
    decreases if n < 0 then 1 - n else n
  {
    if n < 0 then ['-'] + Number(-n)
    else if n < 10 then [('0' as int + n) as char]
    else Number(n / 10) + [('0' as int + n % 10) as char]
  }

  function NumberOf(digits: string): int {
    if digits == [] then 0 else 10 * NumberOf(digits[..|digits| - 1]) + (digits[|digits| - 1] as int - '0' as int)
  }

  lemma {:induction false} NumberReads(n: nat)
    ensures NumberOf(Number(n)) == n && Number(n)[0] != '-'
  {
    if n >= 10 {
      NumberReads(n / 10);
      var s := Number(n);
      assert s[..|s| - 1] == Number(n / 10);
    } else {
      assert Number(n)[..0] == [];
    }
  }

  lemma NumberTells(a: int, b: int)
    ensures Number(a) == Number(b) ==> a == b
  {
    if Number(a) == Number(b) {
      NumberReads(if a < 0 then -a else a);
      NumberReads(if b < 0 then -b else b);
      assert a < 0 ==> Number(a)[1..] == Number(-a);
      assert b < 0 ==> Number(b)[1..] == Number(-b);
    }
  }

  // What is compared of a check-in: callsign and name whatever their case.
  function Key(c: CheckIn): string {
    Upper(c.callsign + [SEPARATOR] + c.name) + [SEPARATOR] + c.report + [SEPARATOR] + c.remarks + [SEPARATOR]
    + c.comment + [SEPARATOR] + Number(c.role)
  }

  function Keys(log: seq<CheckIn>): (keys: seq<string>)
    ensures |keys| == |log| && forall i :: 0 <= i < |log| ==> keys[i] == Key(log[i])
  {
    seq(|log|, i requires 0 <= i < |log| => Key(log[i]))
  }

  // ---- The order of strings ----

  predicate AtMost(a: string, b: string) {
    a == [] || (b != [] && (a[0] < b[0] || (a[0] == b[0] && AtMost(a[1..], b[1..]))))
  }

  lemma {:induction false} AtMostTotal(a: string, b: string)
    ensures AtMost(a, b) || AtMost(b, a)
    ensures AtMost(a, b) && AtMost(b, a) ==> a == b
  {
    if a != [] && b != [] {
      AtMostTotal(a[1..], b[1..]);
      if a[0] == b[0] && a[1..] == b[1..] {
        assert a == [a[0]] + a[1..] && b == [b[0]] + b[1..];
      }
    }
  }

  lemma {:induction false} AtMostTransitive(a: string, b: string, c: string)
    requires AtMost(a, b) && AtMost(b, c)
    ensures AtMost(a, c)
  {
    if a != [] && a[0] == b[0] == c[0] {
      AtMostTransitive(a[1..], b[1..], c[1..]);
    }
  }

  // ---- Sorting ----

  predicate IsSorted(keys: seq<string>) {
    forall i, j :: 0 <= i < j < |keys| ==> AtMost(keys[i], keys[j])
  }

  function Insert(keys: seq<string>, key: string): seq<string> {
    if keys == [] || AtMost(key, keys[0]) then [key] + keys else [keys[0]] + Insert(keys[1..], key)
  }

  function Sort(keys: seq<string>): seq<string> {
    if keys == [] then [] else Insert(Sort(keys[1..]), keys[0])
  }

  lemma {:induction false} InsertSorts(keys: seq<string>, key: string)
    requires IsSorted(keys)
    ensures IsSorted(Insert(keys, key)) && multiset(Insert(keys, key)) == multiset(keys) + multiset{key}
  {
    if keys == [] {
    } else if AtMost(key, keys[0]) {
      FirstSorts(key, keys);
    } else {
      InsertSorts(keys[1..], key);
      AtMostTotal(key, keys[0]);
      var rest := Insert(keys[1..], key);
      assert keys == [keys[0]] + keys[1..];
      forall j | 0 <= j < |rest| ensures AtMost(keys[0], rest[j]) {
        assert rest[j] in multiset(rest);
        assert rest[j] == key || rest[j] in multiset(keys[1..]);
      }
      ConsSorts(keys[0], rest);
    }
  }

  lemma ConsSorts(first: string, rest: seq<string>)
    requires IsSorted(rest) && forall j :: 0 <= j < |rest| ==> AtMost(first, rest[j])
    ensures IsSorted([first] + rest)
  {
  }

  lemma FirstSorts(key: string, keys: seq<string>)
    requires IsSorted(keys) && keys != [] && AtMost(key, keys[0])
    ensures IsSorted([key] + keys) && multiset([key] + keys) == multiset(keys) + multiset{key}
  {
    forall j | 0 <= j < |keys| ensures AtMost(key, keys[j]) {
      if j > 0 {
        AtMostTransitive(key, keys[0], keys[j]);
      }
    }
    ConsSorts(key, keys);
  }

  lemma {:induction false} SortSorts(keys: seq<string>)
    ensures IsSorted(Sort(keys)) && multiset(Sort(keys)) == multiset(keys)
  {
    if keys != [] {
      SortSorts(keys[1..]);
      InsertSorts(Sort(keys[1..]), keys[0]);
      assert keys == [keys[0]] + keys[1..];
    }
  }

  // Two sorted lists of the same strings are the same list.
  lemma {:induction false} SortedUnique(a: seq<string>, b: seq<string>)
    requires IsSorted(a) && IsSorted(b) && multiset(a) == multiset(b)
    ensures a == b
  {
    assert |multiset(a)| == |a| && |multiset(b)| == |b|;
    if a != [] {
      LeastFirst(a, b);
      LeastFirst(b, a);
      AtMostTotal(a[0], b[0]);
      WithoutFirst(a);
      WithoutFirst(b);
      SortedUnique(a[1..], b[1..]);
      FirstAndRest(a, b);
    }
  }

  lemma FirstAndRest(a: seq<string>, b: seq<string>)
    requires a != [] && b != [] && a[0] == b[0] && a[1..] == b[1..]
    ensures a == b
  {
    assert a == [a[0]] + a[1..] && b == [b[0]] + b[1..];
  }

  lemma WithoutFirst(s: seq<string>)
    requires s != []
    ensures multiset(s[1..]) == multiset(s) - multiset{s[0]}
  {
    assert s == [s[0]] + s[1..];
  }

  lemma LeastFirst(a: seq<string>, b: seq<string>)
    requires IsSorted(a) && multiset(a) == multiset(b) && a != [] && b != []
    ensures AtMost(a[0], b[0])
  {
    assert b[0] in multiset(a);
    var k :| 0 <= k < |a| && a[k] == b[0];
    if k == 0 {
      AtMostTotal(a[0], a[0]);
    }
  }

  // ---- The same check-ins ----

  predicate SameCheckIns(a: seq<CheckIn>, b: seq<CheckIn>) {
    |a| == |b| && Sort(Keys(a)) == Sort(Keys(b))
  }

  // In any order, each as often.
  lemma SameCheckInsMeans(a: seq<CheckIn>, b: seq<CheckIn>)
    ensures SameCheckIns(a, b) <==> multiset(Keys(a)) == multiset(Keys(b))
  {
    SortSorts(Keys(a));
    SortSorts(Keys(b));
    if multiset(Keys(a)) == multiset(Keys(b)) {
      SortedUnique(Sort(Keys(a)), Sort(Keys(b)));
      assert |multiset(Keys(a))| == |a| && |multiset(Keys(b))| == |b|;
    }
  }

  // Without the separator in any field, a key tells every field compared.
  predicate Plain(c: CheckIn) {
    SEPARATOR !in c.callsign && SEPARATOR !in c.name && SEPARATOR !in c.report && SEPARATOR !in c.remarks
    && SEPARATOR !in c.comment
  }

  lemma {:induction false} FieldTells(a: string, x: string, b: string, y: string)
    requires SEPARATOR !in a && SEPARATOR !in b && a + [SEPARATOR] + x == b + [SEPARATOR] + y
    ensures a == b && x == y
  {
    var s, t := a + [SEPARATOR] + x, b + [SEPARATOR] + y;
    assert s[|a|] == SEPARATOR && t[|b|] == SEPARATOR;
    assert forall i :: 0 <= i < |a| ==> s[i] == a[i] != SEPARATOR;
    assert forall i :: 0 <= i < |b| ==> t[i] == b[i] != SEPARATOR;
    assert a == s[..|a|] && b == t[..|b|] && x == s[|a| + 1..] && y == t[|b| + 1..];
  }

  lemma UpperPlain(s: string)
    requires SEPARATOR !in s
    ensures SEPARATOR !in Upper(s)
  {
  }

  lemma UpperSplits(a: string, b: string)
    ensures Upper(a + [SEPARATOR] + b) == Upper(a) + [SEPARATOR] + Upper(b)
  {
  }

  // A key's parts, one after another.
  lemma KeyParts(c: CheckIn)
    ensures Key(c) == Upper(c.callsign) + [SEPARATOR] + (Upper(c.name) + [SEPARATOR] + AfterName(c))
  {
    UpperSplits(c.callsign, c.name);
    var u, v, w := Upper(c.callsign), Upper(c.name), AfterName(c);
    assert Key(c) == (u + [SEPARATOR] + v) + [SEPARATOR] + w;
    assert (u + [SEPARATOR] + v) + [SEPARATOR] + w == u + [SEPARATOR] + (v + [SEPARATOR] + w);
  }

  function AfterName(c: CheckIn): string {
    c.report + [SEPARATOR] + (c.remarks + [SEPARATOR] + (c.comment + [SEPARATOR] + Number(c.role)))
  }

  predicate ReportsTheSame(a: CheckIn, b: CheckIn) {
    && Upper(a.callsign) == Upper(b.callsign) && Upper(a.name) == Upper(b.name)
    && a.report == b.report && a.remarks == b.remarks && a.comment == b.comment && a.role == b.role
  }

  lemma KeyTells(a: CheckIn, b: CheckIn)
    requires Plain(a) && Plain(b)
    ensures Key(a) == Key(b) <==> ReportsTheSame(a, b)
  {
    KeyParts(a);
    KeyParts(b);
    if Key(a) == Key(b) {
      UpperPlain(a.callsign);
      UpperPlain(b.callsign);
      FieldTells(Upper(a.callsign), Upper(a.name) + [SEPARATOR] + AfterName(a),
                 Upper(b.callsign), Upper(b.name) + [SEPARATOR] + AfterName(b));
      UpperPlain(a.name);
      UpperPlain(b.name);
      FieldTells(Upper(a.name), AfterName(a), Upper(b.name), AfterName(b));
      AfterNameTells(a, b);
      NumberTells(a.role, b.role);
    }
  }

  lemma AfterNameTells(a: CheckIn, b: CheckIn)
    requires Plain(a) && Plain(b) && AfterName(a) == AfterName(b)
    ensures a.report == b.report && a.remarks == b.remarks && a.comment == b.comment && Number(a.role) == Number(b.role)
  {
    FieldTells(a.report, a.remarks + [SEPARATOR] + (a.comment + [SEPARATOR] + Number(a.role)),
               b.report, b.remarks + [SEPARATOR] + (b.comment + [SEPARATOR] + Number(b.role)));
    FieldTells(a.remarks, a.comment + [SEPARATOR] + Number(a.role), b.remarks, b.comment + [SEPARATOR] + Number(b.role));
    FieldTells(a.comment, Number(a.role), b.comment, Number(b.role));
  }
}
