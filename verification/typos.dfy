// How many edits two words are apart, a swap of two neighbouring letters
// counting as one, and which words look alike.
module Typos {
  // ---- What it means ----

  // One letter kept, changed, dropped or inserted, or two swapped.
  datatype Edit = Keep | Change | Drop | Insert | Swap

  datatype Script = Nothing | Then(before: Script, edit: Edit)

  // Both end in the same two letters, the other way round.
  predicate Crossed(a: string, b: string, i: nat, j: nat)
    requires i <= |a| && j <= |b|
  {
    i > 1 && j > 1 && a[i - 1] == b[j - 2] && a[i - 2] == b[j - 1]
  }

  // The script makes the first `j` letters of `b` of the first `i` of `a`.
  predicate Edits(script: Script, a: string, b: string, i: nat, j: nat)
    requires i <= |a| && j <= |b|
  {
    match script
    case Nothing => i == 0 && j == 0
    case Then(before, Keep) => i > 0 && j > 0 && a[i - 1] == b[j - 1] && Edits(before, a, b, i - 1, j - 1)
    case Then(before, Change) => i > 0 && j > 0 && Edits(before, a, b, i - 1, j - 1)
    case Then(before, Drop) => i > 0 && Edits(before, a, b, i - 1, j)
    case Then(before, Insert) => j > 0 && Edits(before, a, b, i, j - 1)
    case Then(before, Swap) => Crossed(a, b, i, j) && Edits(before, a, b, i - 2, j - 2)
  }

  // Each edit but keeping a letter counts.
  function Cost(script: Script): nat {
    match script
    case Nothing => 0
    case Then(before, edit) => Cost(before) + if edit.Keep? then 0 else 1
  }

  // The fewest edits there can be.
  ghost predicate Fewest(n: nat, a: string, b: string, i: nat, j: nat)
    requires i <= |a| && j <= |b|
  {
    && (exists script :: Edits(script, a, b, i, j) && Cost(script) == n)
    && forall script :: Edits(script, a, b, i, j) ==> n <= Cost(script)
  }

  ghost predicate IsFewest(n: nat, a: string, b: string) {
    Fewest(n, a, b, |a|, |b|)
  }

  // ---- Letter by letter ----

  function Min(a: nat, b: nat): nat {
    if a < b then a else b
  }

  lemma OneMore(n: nat, a: string, b: string, x: nat, y: nat, i: nat, j: nat, edit: Edit)
    requires x <= |a| && y <= |b| && i <= |a| && j <= |b| && Fewest(n, a, b, x, y)
    requires forall s :: Edits(s, a, b, x, y) ==> Edits(Then(s, edit), a, b, i, j)
    ensures exists s :: Edits(s, a, b, i, j) && Cost(s) == n + if edit.Keep? then 0 else 1
  {
    var before :| Edits(before, a, b, x, y) && Cost(before) == n;
    assert Edits(Then(before, edit), a, b, i, j);
    assert Cost(Then(before, edit)) == n + if edit.Keep? then 0 else 1;
  }

  // With no letters on one side there is one way only.
  lemma {:induction false} FirstColumn(a: string, b: string, i: nat)
    requires i <= |a|
    ensures Fewest(i, a, b, i, 0)
  {
    if i == 0 {
      assert Edits(Nothing, a, b, 0, 0);
    } else {
      FirstColumn(a, b, i - 1);
      OneMore(i - 1, a, b, i - 1, 0, i, 0, Drop);
    }
  }

  lemma {:induction false} FirstRow(a: string, b: string, j: nat)
    requires j <= |b|
    ensures Fewest(j, a, b, 0, j)
  {
    if j == 0 {
      assert Edits(Nothing, a, b, 0, 0);
    } else {
      FirstRow(a, b, j - 1);
      OneMore(j - 1, a, b, 0, j - 1, 0, j, Insert);
    }
  }

  // The rest follows from three neighbours, and a fourth if the last two
  // letters are swapped.
  lemma Cell(a: string, b: string, i: nat, j: nat, drop: nat, insert: nat, change: nat, swap: nat, n: nat)
    requires 0 < i <= |a| && 0 < j <= |b|
    requires Fewest(drop, a, b, i - 1, j) && Fewest(insert, a, b, i, j - 1) && Fewest(change, a, b, i - 1, j - 1)
    requires Crossed(a, b, i, j) ==> Fewest(swap, a, b, i - 2, j - 2)
    requires
      var fewest := Min(drop + 1, Min(insert + 1, change + if a[i - 1] == b[j - 1] then 0 else 1));
      n == if Crossed(a, b, i, j) then Min(fewest, swap + 1) else fewest
    ensures Fewest(n, a, b, i, j)
  {
    if n == drop + 1 {
      OneMore(drop, a, b, i - 1, j, i, j, Drop);
    } else if n == insert + 1 {
      OneMore(insert, a, b, i, j - 1, i, j, Insert);
    } else if Crossed(a, b, i, j) && n == swap + 1 {
      OneMore(swap, a, b, i - 2, j - 2, i, j, Swap);
    } else {
      OneMore(change, a, b, i - 1, j - 1, i, j, if a[i - 1] == b[j - 1] then Keep else Change);
    }
    forall script | Edits(script, a, b, i, j)
      ensures n <= Cost(script)
    {
      NoneIsCheaper(a, b, i, j, drop, insert, change, swap, n, script);
    }
  }

  lemma NoneIsCheaper(a: string, b: string, i: nat, j: nat, drop: nat, insert: nat, change: nat, swap: nat, n: nat, script: Script)
    requires 0 < i <= |a| && 0 < j <= |b|
    requires Fewest(drop, a, b, i - 1, j) && Fewest(insert, a, b, i, j - 1) && Fewest(change, a, b, i - 1, j - 1)
    requires Crossed(a, b, i, j) ==> Fewest(swap, a, b, i - 2, j - 2) && n <= swap + 1
    requires n <= drop + 1 && n <= insert + 1 && n <= change + 1 && (a[i - 1] == b[j - 1] ==> n <= change)
    requires Edits(script, a, b, i, j)
    ensures n <= Cost(script)
  {
    match script.edit {
      case Keep =>
        assert change <= Cost(script.before);
      case Change =>
        assert change <= Cost(script.before);
      case Drop =>
        assert drop <= Cost(script.before);
      case Insert =>
        assert insert <= Cost(script.before);
      case Swap =>
        assert swap <= Cost(script.before);
    }
  }

  // ---- As it is computed, in a table ----

  // The table's first rows are filled in.
  ghost predicate Filled(d: array2<nat>, a: string, b: string, rows: nat)
    requires d.Length0 == |a| + 1 && d.Length1 == |b| + 1
    reads d
  {
    forall k, l :: 0 <= k < rows && k <= |a| && 0 <= l <= |b| ==> Fewest(d[k, l], a, b, k, l)
  }

  method FillRow(d: array2<nat>, a: string, b: string, i: nat)
    requires d.Length0 == |a| + 1 && d.Length1 == |b| + 1 && 1 <= i <= |a|
    requires Filled(d, a, b, i) && d[i, 0] == i
    modifies d
    ensures Filled(d, a, b, i + 1)
    ensures forall k :: i < k <= |a| ==> d[k, 0] == old(d[k, 0])
  {
    FirstColumn(a, b, i);
    for j := 1 to |b| + 1
      invariant Filled(d, a, b, i)
      invariant forall l :: 0 <= l < j ==> Fewest(d[i, l], a, b, i, l)
      invariant forall k :: i < k <= |a| ==> d[k, 0] == old(d[k, 0])
    {
      var cost := if a[i - 1] == b[j - 1] then 0 else 1;
      var fewest := Min(d[i - 1, j] + 1, Min(d[i, j - 1] + 1, d[i - 1, j - 1] + cost));
      ghost var swap := 0;
      if i > 1 && j > 1 && a[i - 1] == b[j - 2] && a[i - 2] == b[j - 1] {
        fewest := Min(fewest, d[i - 2, j - 2] + 1);
        swap := d[i - 2, j - 2];
      }
      Cell(a, b, i, j, d[i - 1, j], d[i, j - 1], d[i - 1, j - 1], swap, fewest);
      d[i, j] := fewest;
    }
  }

  method TypoDistance(a: string, b: string) returns (distance: nat)
    ensures IsFewest(distance, a, b)
  {
    var d := new nat[|a| + 1, |b| + 1]((i, j) => 0);
    for i := 0 to |a| + 1
      invariant forall k :: 0 <= k < i ==> d[k, 0] == k
    {
      d[i, 0] := i;
    }
    for j := 0 to |b| + 1
      invariant forall k :: 0 <= k <= |a| ==> d[k, 0] == k
      invariant forall k :: 0 <= k < j ==> d[0, k] == k
    {
      d[0, j] := j;
    }
    forall l | 0 <= l <= |b|
      ensures Fewest(d[0, l], a, b, 0, l)
    {
      FirstRow(a, b, l);
    }
    for i := 1 to |a| + 1
      invariant Filled(d, a, b, i)
      invariant forall k :: i <= k <= |a| ==> d[k, 0] == k
    {
      FillRow(d, a, b, i);
    }
    distance := d[|a|, |b|];
  }

  // ---- Both ways alike ----

  // Undone edit by edit, a script makes the first word out of the second.
  function Back(script: Script): Script {
    match script
    case Nothing => Nothing
    case Then(before, Drop) => Then(Back(before), Insert)
    case Then(before, Insert) => Then(Back(before), Drop)
    case Then(before, edit) => Then(Back(before), edit)
  }

  lemma {:induction false} Undone(script: Script, a: string, b: string, i: nat, j: nat)
    requires i <= |a| && j <= |b| && Edits(script, a, b, i, j)
    ensures Edits(Back(script), b, a, j, i) && Cost(Back(script)) == Cost(script)
    decreases script
  {
    match script {
      case Nothing =>
      case Then(before, Drop) => Undone(before, a, b, i - 1, j);
      case Then(before, Insert) => Undone(before, a, b, i, j - 1);
      case Then(before, Swap) => Undone(before, a, b, i - 2, j - 2);
      case Then(before, _) => Undone(before, a, b, i - 1, j - 1);
    }
  }

  lemma DistanceIsSymmetric(n: nat, a: string, b: string)
    requires IsFewest(n, a, b)
    ensures IsFewest(n, b, a)
  {
    var script :| Edits(script, a, b, |a|, |b|) && Cost(script) == n;
    Undone(script, a, b, |a|, |b|);
    forall s | Edits(s, b, a, |b|, |a|)
      ensures n <= Cost(s)
    {
      Undone(s, b, a, |b|, |a|);
    }
  }

  ghost predicate Within(k: nat, a: string, b: string) {
    exists script :: Edits(script, a, b, |a|, |b|) && Cost(script) <= k
  }

  predicate IsAllDigits(word: string) {
    word != [] && forall i :: 0 <= i < |word| ==> '0' <= word[i] <= '9'
  }

  // `part` is found somewhere in `text`.
  predicate Contains(text: string, part: string) {
    exists i :: 0 <= i <= |text| && Occurs(text, part, i)
  }

  predicate Occurs(text: string, part: string, i: nat) {
    i + |part| <= |text| && text[i..i + |part|] == part
  }

  // The same, one in the other, or a typo or two apart, the longer the words
  // the more; but numbers only match exactly.
  ghost predicate LookAlike(a: string, b: string) {
    var size := Min(|a|, |b|);
    || a == b
    || (!IsAllDigits(a) && !IsAllDigits(b) &&
        ((size >= 3 && (Contains(a, b) || Contains(b, a))) || (size >= 4 && Within(if size >= 7 then 2 else 1, a, b))))
  }

  lemma LookAlikeIsSymmetric(a: string, b: string)
    ensures LookAlike(a, b) <==> LookAlike(b, a)
  {
    forall k, x, y | Within(k, x, y)
      ensures Within(k, y, x)
    {
      var script :| Edits(script, x, y, |x|, |y|) && Cost(script) <= k;
      Undone(script, x, y, |x|, |y|);
    }
  }

  method Find(text: string, part: string) returns (found: bool)
    ensures found <==> Contains(text, part)
  {
    var i := 0;
    while i + |part| <= |text|
      invariant i <= |text| + 1 && forall k :: 0 <= k < i ==> !Occurs(text, part, k)
      decreases |text| - i
    {
      if text[i..i + |part|] == part {
        assert Occurs(text, part, i);
        return true;
      }
      i := i + 1;
    }
    found := false;
  }

  method WordsLookAlike(a: string, b: string) returns (alike: bool)
    ensures alike <==> LookAlike(a, b)
  {
    if a == b {
      return true;
    }
    if IsAllDigits(a) || IsAllDigits(b) {
      return false;
    }
    var shorter := if |a| <= |b| then a else b;
    var longer := if |a| <= |b| then b else a;
    NotInShorter(shorter, longer);
    if |shorter| >= 3 {
      var found := Find(longer, shorter);
      if found {
        return true;
      }
    }
    if |shorter| >= 7 {
      var distance := TypoDistance(a, b);
      return distance <= 2;
    }
    if |shorter| >= 4 {
      var distance := TypoDistance(a, b);
      return distance <= 1;
    }
    alike := false;
  }

  lemma NotInShorter(shorter: string, longer: string)
    requires shorter != longer && |shorter| <= |longer|
    ensures !Contains(shorter, longer)
  {
    assert shorter[0..|shorter|] == shorter;
  }
}
