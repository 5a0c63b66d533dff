// Which nets go by names that are the same, or look alike.
module NetNames {
  import opened Typos

  // ---- Characters, as bytes of UTF-8 ----

  const LATIN: char := 0xC3 as char

  function Upper(c: char): char {
    if 'a' <= c <= 'z' then (c as int - 32) as char else c
  }

  predicate IsSpace(c: char) {
    c == ' ' || 9 as char <= c <= 13 as char
  }

  predicate IsWordChar(c: char) {
    '0' <= c <= '9' || 'A' <= c <= 'Z' || 'a' <= c <= 'z'
  }

  // Whether a byte after LATIN makes an accented letter with it.
  predicate IsAccented(c: char) {
    var upper := if c as int >= 0xA0 then c as int - 0x20 else c as int;
    0x80 <= upper <= 0x9D && upper != 0x86 && upper != 0x90 && upper != 0x97
  }

  // And the plain letter for it.
  function Plain(c: char): (p: char)
    requires IsAccented(c)
    ensures 'A' <= p <= 'Z'
  {
    var upper := if c as int >= 0xA0 then c as int - 0x20 else c as int;
    if upper <= 0x85 then 'A'
    else if upper == 0x87 then 'C'
    else if upper <= 0x8B then 'E'
    else if upper <= 0x8F then 'I'
    else if upper == 0x91 then 'N'
    else if upper <= 0x98 then 'O'
    else if upper <= 0x9C then 'U'
    else 'Y'
  }

  // ---- The words of a name ----

  predicate IsFoldable(value: string) {
    |value| > 1 && value[0] == LATIN && IsAccented(value[1])
  }

  // A name in capitals, without accents and periods.
  function Normalized(value: string): string
    decreases |value|
  {
    if value == [] then []
    else if IsFoldable(value) then [Plain(value[1])] + Normalized(value[2..])
    else if value[0] == '.' then Normalized(value[1..])
    else [Upper(value[0])] + Normalized(value[1..])
  }

  method NormalizePlaceName(value: string) returns (result: string)
    ensures result == Normalized(value)
  {
    result := [];
    var i := 0;
    ghost var whole := Normalized(value);
    ghost var left := whole;
    assert value[0..] == value;
    while i < |value|
      invariant i <= |value| && left == Normalized(value[i..]) && result + left == whole
    {
      var letters, size;
      letters, size, left := NextLetters(value, i, left);
      assert (result + letters) + left == result + (letters + left);
      result := result + letters;
      i := i + size;
    }
    assert left == [] && result + [] == result;
  }

  // What the next one or two characters become.
  method NextLetters(value: string, i: nat, ghost left: string) returns (letters: string, size: nat, ghost after: string)
    requires i < |value| && left == Normalized(value[i..])
    ensures 0 < size && i + size <= |value| && after == Normalized(value[i + size..]) && left == letters + after
  {
    var c := value[i];
    ghost var rest := value[i..];
    if c == LATIN && i + 1 < |value| && IsAccented(value[i + 1]) {
      assert rest[2..] == value[i + 2..];
      return [Plain(value[i + 1])], 2, Normalized(value[i + 2..]);
    }
    assert rest[1..] == value[i + 1..];
    return if c == '.' then [] else [Upper(c)], 1, Normalized(value[i + 1..]);
  }

  // Common abbreviations are spelled out.
  function Spelled(word: string): (s: string)
    ensures word != [] ==> s != []
  {
    if word == "CO" || word == "CTY" || word == "CNTY" then "COUNTY"
    else if word == "WX" then "WEATHER"
    else if word == "EMERG" || word == "EMRG" then "EMERGENCY"
    else word
  }

  // A word that ends here, if there is one.
  function Ended(word: string): seq<string> {
    if word == [] then [] else [Spelled(word)]
  }

  // The runs of letters and digits, the first of them begun with `word`.
  function Words(text: string, word: string): (words: seq<string>)
    ensures [] !in words
    decreases |text|
  {
    if text == [] then Ended(word)
    else if IsWordChar(text[0]) then Words(text[1..], word + [text[0]])
    else Ended(word) + Words(text[1..], [])
  }

  function WordsOf(name: string): (words: seq<string>)
    ensures [] !in words
  {
    Words(Normalized(name), [])
  }

  method NameWords(name: string) returns (words: seq<string>)
    ensures words == WordsOf(name)
  {
    var normalized := NormalizePlaceName(name);
    var word: string := [];
    words := [];
    assert normalized[0..] == normalized;
    for i := 0 to |normalized|
      invariant words + Words(normalized[i..], word) == Words(normalized, [])
    {
      assert normalized[i..][1..] == normalized[i + 1..];
      if IsWordChar(normalized[i]) {
        word := word + [normalized[i]];
        continue;
      }
      if word != [] {
        words := words + [Spelled(word)];
        word := [];
      }
    }
    if word != [] {
      words := words + [Spelled(word)];
    }
  }

  // ---- The same name ----

  // A name in capitals, each run of spaces one space, and none at the ends.
  // `pending` says that a space goes before what comes next.
  function Key(name: string, started: bool, pending: bool): string
    decreases |name|
  {
    if name == [] then []
    else if IsSpace(name[0]) then Key(name[1..], started, started)
    else
      var key := [Upper(name[0])] + Key(name[1..], true, false);
      if pending then [' '] + key else key
  }

  method NetNameKey(name: string) returns (key: string)
    ensures key == Key(name, false, false)
  {
    key := [];
    var pendingSpace := false;
    assert name[0..] == name;
    for i := 0 to |name|
      invariant key + Key(name[i..], key != [], pendingSpace) == Key(name, false, false)
    {
      var c := name[i];
      ghost var rest := Key(name[i + 1..], true, false);
      assert name[i..][1..] == name[i + 1..];
      assert key + ([' '] + ([Upper(c)] + rest)) == key + [' '] + [Upper(c)] + rest;
      assert key + ([Upper(c)] + rest) == key + [Upper(c)] + rest;
      if IsSpace(c) {
        pendingSpace := key != [];
        continue;
      }
      if pendingSpace {
        key := key + [' '];
        pendingSpace := false;
      }
      key := key + [Upper(c)];
    }
  }

  method NetNamesAreTheSame(a: string, b: string) returns (same: bool)
    ensures same <==> Key(a, false, false) == Key(b, false, false)
  {
    var keyA := NetNameKey(a);
    var keyB := NetNameKey(b);
    same := keyA == keyB;
  }

  // The words of what is left of a name, the first begun with `word`.
  function Left(name: string, word: string): seq<string> {
    Words(Normalized(name), word)
  }

  // What the next characters of a name do.
  lemma NextOf(name: string, word: string)
    requires name != []
    ensures Left(name, word) ==
            if IsFoldable(name) then Left(name[2..], word + [Plain(name[1])])
            else if name[0] == '.' then Left(name[1..], word)
            else if IsWordChar(name[0]) then Left(name[1..], word + [Upper(name[0])])
            else Ended(word) + Left(name[1..], [])
  {
    var text := Normalized(name);
    if IsFoldable(name) {
      assert text[1..] == Normalized(name[2..]);
    } else if name[0] != '.' {
      assert text[1..] == Normalized(name[1..]);
    }
  }

  // The key has the words of its name.
  lemma {:induction false} KeyHasTheWords(name: string, started: bool, pending: bool, word: string)
    requires pending ==> started
    requires !started ==> word == []
    ensures Left(Key(name, started, pending), word) == if pending then Ended(word) + Left(name, []) else Left(name, word)
    decreases |name|, 1
  {
    if name == [] {
      assert Ended(word) + Left([], []) == Ended(word);
    } else if IsSpace(name[0]) {
      KeyHasTheWords(name[1..], started, started, word);
      SpaceHere(name, word);
    } else {
      var key := Key(name, true, false);
      assert key == Key(name, started, false);
      CharHasTheWords(name, if pending then [] else word);
      if pending {
        SpaceGoes(name, key, word);
        assert Key(name, started, pending) == [' '] + key;
      }
    }
  }

  lemma {:induction false} CharHasTheWords(name: string, word: string)
    requires name != [] && !IsSpace(name[0])
    ensures Left(Key(name, true, false), word) == Left(name, word)
    decreases |name|, 0
  {
    var key, rest := Key(name, true, false), Key(name[1..], true, false);
    if IsFoldable(name) {
      var after := Key(name[2..], true, false);
      KeyHasTheWords(name[2..], true, false, word + [Plain(name[1])]);
      FoldedGoes(name, after, word);
      TwoOfKey(name, after);
    } else {
      var c := Upper(name[0]);
      NotFoldable(name);
      KeyHasTheWords(name[1..], true, false, WordThen(word, c));
      CharGoes(name, rest, word);
    }
  }

  lemma TwoOfKey(name: string, after: string)
    requires IsFoldable(name) && after == Key(name[2..], true, false)
    ensures Key(name, true, false) == [name[0], name[1]] + after
  {
    assert name[1..][1..] == name[2..];
    assert Key(name[1..], true, false) == [name[1]] + after;
  }

  // The word so far, after one more character.
  function WordThen(word: string, c: char): string {
    if c == '.' then word else if IsWordChar(c) then word + [c] else []
  }

  lemma SpaceHere(name: string, word: string)
    requires name != [] && IsSpace(name[0])
    ensures Left(name, word) == Ended(word) + Left(name[1..], []) && Left(name, []) == Left(name[1..], [])
  {
    NextOf(name, word);
    NextOf(name, []);
    assert Ended([]) + Left(name[1..], []) == Left(name[1..], []);
  }

  lemma SpaceGoes(name: string, rest: string, word: string)
    requires Left(rest, []) == Left(name, [])
    ensures Left([' '] + rest, word) == Ended(word) + Left(name, [])
  {
    NextOf([' '] + rest, word);
    assert ([' '] + rest)[1..] == rest;
  }

  lemma FoldedGoes(name: string, after: string, word: string)
    requires IsFoldable(name)
    requires Left(after, word + [Plain(name[1])]) == Left(name[2..], word + [Plain(name[1])])
    ensures Left([name[0], name[1]] + after, word) == Left(name, word)
  {
    var key := [name[0], name[1]] + after;
    NextOf(key, word);
    NextOf(name, word);
    assert key[2..] == after;
  }

  lemma CharGoes(name: string, rest: string, word: string)
    requires name != [] && !IsFoldable(name) && !IsFoldable([Upper(name[0])] + rest)
    requires Left(rest, WordThen(word, Upper(name[0]))) == Left(name[1..], WordThen(word, Upper(name[0])))
    ensures Left([Upper(name[0])] + rest, word) == Left(name, word)
  {
    var key := [Upper(name[0])] + rest;
    NextOf(key, word);
    NextOf(name, word);
    assert key[1..] == rest;
  }

  // A name that doesn't start with an accented letter has no key that does.
  lemma NotFoldable(name: string)
    requires name != [] && !IsSpace(name[0]) && !IsFoldable(name)
    ensures !IsFoldable(Key(name, true, false))
  {
    var rest := name[1..];
    if |name| > 1 && !IsSpace(rest[0]) {
      assert Key(rest, true, false) == [Upper(rest[0])] + Key(rest[1..], true, false);
    } else if |name| > 1 {
      KeyStartsWithSpace(rest);
    }
  }

  lemma {:induction false} KeyStartsWithSpace(name: string)
    requires name != [] && IsSpace(name[0])
    ensures var key := Key(name, true, false); key == [] || key[0] == ' '
    decreases |name|
  {
    PendingStartsWithSpace(name[1..]);
  }

  lemma {:induction false} PendingStartsWithSpace(name: string)
    ensures var key := Key(name, true, true); key == [] || key[0] == ' '
    decreases |name|
  {
    if name != [] && IsSpace(name[0]) {
      PendingStartsWithSpace(name[1..]);
    }
  }

  lemma SameNamesHaveTheSameWords(a: string, b: string)
    requires Key(a, false, false) == Key(b, false, false)
    ensures WordsOf(a) == WordsOf(b)
  {
    KeyHasTheWords(a, false, false, []);
    KeyHasTheWords(b, false, false, []);
  }

  // ---- Names that look alike ----

  function Joined(words: seq<string>): string {
    if words == [] then [] else Joined(words[..|words| - 1]) + words[|words| - 1]
  }

  predicate IsFiller(word: string) {
    word == "THE" || word == "OF" || word == "AND" || word == "NET"
  }

  function Initials(words: seq<string>, skipFiller: bool): string
    requires [] !in words
  {
    if words == [] then []
    else
      var before, last := Initials(words[..|words| - 1], skipFiller), words[|words| - 1];
      if skipFiller && IsFiller(last) then before else before + [last[0]]
  }

  // The words that say which net it is.
  function Telling(words: seq<string>, common: string -> bool): (telling: seq<string>)
    ensures forall w :: w in telling ==> w in words
  {
    if words == [] then []
    else
      var before, last := Telling(words[..|words| - 1], common), words[|words| - 1];
      if common(last) then before else before + [last]
  }

  // A word is the initials of the other name.
  predicate IsAcronymOf(word: string, other: seq<string>)
    requires [] !in other
  {
    |word| >= 2 && !IsAllDigits(word) && (word == Initials(other, false) || word == Initials(other, true))
  }

  // It is in the other name's words run together.
  predicate RunsInto(word: string, other: seq<string>) {
    |word| >= 4 && Contains(Joined(other), word)
  }

  ghost predicate AnyAlike(words: seq<string>, other: seq<string>) {
    exists word, w :: word in words && w in other && LookAlike(word, w)
  }

  predicate AnyAcronym(words: seq<string>, other: seq<string>)
    requires [] !in other
  {
    exists word :: word in words && IsAcronymOf(word, other)
  }

  predicate AnyRunsInto(words: seq<string>, other: seq<string>) {
    exists word :: word in words && RunsInto(word, other)
  }

  // A word of one looks like something in the other.
  ghost predicate Tells(telling: seq<string>, otherWords: seq<string>, otherTelling: seq<string>)
    requires [] !in otherWords
  {
    AnyAlike(telling, otherTelling) || AnyAcronym(telling, otherWords) || AnyRunsInto(telling, otherTelling)
  }

  ghost predicate NamesLookAlike(a: string, b: string, common: string -> bool, alikeIfUnsure: bool) {
    var wordsA, wordsB := WordsOf(a), WordsOf(b);
    var tellingA, tellingB := Telling(wordsA, common), Telling(wordsB, common);
    || Joined(wordsA) == Joined(wordsB)
    || if tellingA == [] || tellingB == [] then alikeIfUnsure
       else Tells(tellingA, wordsB, tellingB) || Tells(tellingB, wordsA, tellingA)
  }

  method JoinWords(words: seq<string>) returns (joined: string)
    ensures joined == Joined(words)
  {
    joined := [];
    for i := 0 to |words|
      invariant joined == Joined(words[..i])
    {
      assert words[..i + 1][..i] == words[..i];
      joined := joined + words[i];
    }
    assert words[..|words|] == words;
  }

  method MakeInitials(words: seq<string>, skipFiller: bool) returns (initials: string)
    requires [] !in words
    ensures initials == Initials(words, skipFiller)
  {
    initials := [];
    for i := 0 to |words|
      invariant initials == Initials(words[..i], skipFiller)
    {
      assert words[i] in words;
      assert words[..i + 1][..i] == words[..i];
      if skipFiller && IsFiller(words[i]) {
        continue;
      }
      initials := initials + [words[i][0]];
    }
    assert words[..|words|] == words;
  }

  method TellingWords(words: seq<string>, common: string -> bool) returns (telling: seq<string>)
    ensures telling == Telling(words, common)
  {
    telling := [];
    for i := 0 to |words|
      invariant telling == Telling(words[..i], common)
    {
      assert words[..i + 1][..i] == words[..i];
      if !common(words[i]) {
        telling := telling + [words[i]];
      }
    }
    assert words[..|words|] == words;
  }

  method HasAcronymOf(words: seq<string>, other: seq<string>) returns (has: bool)
    requires [] !in other
    ensures has <==> AnyAcronym(words, other)
  {
    var all := MakeInitials(other, false);
    var trimmed := MakeInitials(other, true);
    for i := 0 to |words|
      invariant forall word :: word in words[..i] ==> !IsAcronymOf(word, other)
    {
      if |words[i]| >= 2 && !IsAllDigits(words[i]) && (words[i] == all || words[i] == trimmed) {
        assert IsAcronymOf(words[i], other);
        return true;
      }
    }
    has := false;
  }

  method HasWordIn(words: seq<string>, other: seq<string>) returns (has: bool)
    ensures has <==> AnyRunsInto(words, other)
  {
    var joined := JoinWords(other);
    for i := 0 to |words|
      invariant forall word :: word in words[..i] ==> !RunsInto(word, other)
    {
      if |words[i]| >= 4 {
        var found := Find(joined, words[i]);
        if found {
          assert RunsInto(words[i], other);
          return true;
        }
      }
    }
    has := false;
  }

  method HasWordLike(words: seq<string>, other: seq<string>) returns (has: bool)
    ensures has <==> AnyAlike(words, other)
  {
    for i := 0 to |words|
      invariant forall k, j :: 0 <= k < i && 0 <= j < |other| ==> !LookAlike(words[k], other[j])
    {
      for j := 0 to |other|
        invariant forall k :: 0 <= k < j ==> !LookAlike(words[i], other[k])
      {
        var alike := WordsLookAlike(words[i], other[j]);
        if alike {
          return true;
        }
      }
    }
    has := false;
  }

  method NetNamesLookAlike(a: string, b: string, common: string -> bool, alikeIfUnsure: bool) returns (alike: bool)
    ensures alike <==> NamesLookAlike(a, b, common, alikeIfUnsure)
  {
    var wordsA := NameWords(a);
    var wordsB := NameWords(b);
    var joinedA := JoinWords(wordsA);
    var joinedB := JoinWords(wordsB);
    if joinedA == joinedB {
      return true;
    }
    var keyA := TellingWords(wordsA, common);
    var keyB := TellingWords(wordsB, common);
    if keyA == [] || keyB == [] {
      return alikeIfUnsure;
    }
    AlikeEitherWay(keyA, keyB);
    alike := HasWordLike(keyA, keyB);
    if alike {
      return true;
    }
    alike := HasAcronymOf(keyA, wordsB);
    if alike {
      return true;
    }
    alike := HasAcronymOf(keyB, wordsA);
    if alike {
      return true;
    }
    alike := HasWordIn(keyA, keyB);
    if alike {
      return true;
    }
    alike := HasWordIn(keyB, keyA);
  }

  lemma AlikeEitherWay(a: seq<string>, b: seq<string>)
    ensures AnyAlike(a, b) <==> AnyAlike(b, a)
  {
    forall word, w | LookAlike(word, w)
      ensures LookAlike(w, word)
    {
      LookAlikeIsSymmetric(word, w);
    }
  }

  // Neither name comes first.
  lemma LookingAlikeIsSymmetric(a: string, b: string, common: string -> bool, alikeIfUnsure: bool)
    ensures NamesLookAlike(a, b, common, alikeIfUnsure) <==> NamesLookAlike(b, a, common, alikeIfUnsure)
  {
  }

  // Names that are the same look alike, whatever words are common.
  lemma SameNamesLookAlike(a: string, b: string, common: string -> bool, alikeIfUnsure: bool)
    requires Key(a, false, false) == Key(b, false, false)
    ensures NamesLookAlike(a, b, common, alikeIfUnsure)
  {
    SameNamesHaveTheSameWords(a, b);
  }
}
