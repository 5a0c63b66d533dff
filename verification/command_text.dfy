// The command lines a push runs upstream: written by one side, split and
// understood by the other.
module CommandText {
  // ---- Splitting a line into words ----

  predicate IsControl(c: char) {
    c as int < 0x20 || c as int == 0x7F
  }

  predicate IsBlank(c: char) {
    c == ' ' || c == '\t'
  }

  // What a word may have outside quotes.
  predicate IsPlain(c: char) {
    || '0' <= c <= '9' || 'A' <= c <= 'Z' || 'a' <= c <= 'z'
    || c in {'.', '_', '-', '/', '+', '=', ':', ',', '@', '%'}
  }

  predicate IsPlainWord(word: string) {
    word != [] && forall i :: 0 <= i < |word| ==> IsPlain(word[i])
  }

  // What has been read of a line: whole words, and some of another. A
  // backslash in quotes counts for itself unless a quote or another follows.
  datatype State =
    | Between(words: seq<string>)
    | InWord(words: seq<string>, word: string)
    | InQuotes(words: seq<string>, word: string, escaping: bool)
    | AfterQuote(words: seq<string>, word: string)
    | Bad

  function Step(s: State, c: char): State {
    match s
    case Bad => Bad
    case InQuotes(words, word, escaping) =>
      if IsControl(c) then Bad
      else if escaping && (c == '"' || c == '\\') then InQuotes(words, word + [c], false)
      else
        var more := if escaping then word + ['\\'] else word;
        if c == '\\' then InQuotes(words, more, true)
        else if c == '"' then AfterQuote(words, more)
        else InQuotes(words, more + [c], false)
    case Between(words) =>
      if IsBlank(c) then s
      else if c == '"' then InQuotes(words, [], false)
      else if IsPlain(c) then InWord(words, [c])
      else Bad
    case InWord(words, word) =>
      if IsBlank(c) then Between(words + [word])
      else if IsPlain(c) then InWord(words, word + [c])
      else Bad
    case AfterQuote(words, word) =>
      if IsBlank(c) then Between(words + [word]) else Bad
  }

  function Feed(s: State, text: string): State
    decreases |text|
  {
    if text == [] then s else Feed(Step(s, text[0]), text[1..])
  }

  datatype Words = Words(words: seq<string>) | NoWords

  function Finish(s: State): Words {
    match s
    case Between(words) => Words(words)
    case InWord(words, word) => Words(words + [word])
    case AfterQuote(words, word) => Words(words + [word])
    case _ => NoWords
  }

  function Split(line: string): Words {
    Finish(Feed(Between([]), line))
  }

  lemma {:induction false} FeedMore(s: State, a: string, b: string)
    ensures Feed(s, a + b) == Feed(Feed(s, a), b)
    decreases |a|
  {
    if a == [] {
      assert a + b == b;
    } else {
      assert (a + b)[1..] == a[1..] + b;
      FeedMore(Step(s, a[0]), a[1..], b);
    }
  }

  lemma {:induction false} FeedBad(text: string)
    ensures Feed(Bad, text) == Bad
    decreases |text|
  {
    if text != [] {
      FeedBad(text[1..]);
    }
  }

  // What the loop below knows, as a state.
  function Reading(words: seq<string>, word: string, inWord: bool, inQuotes: bool, afterQuote: bool): State {
    if inQuotes then InQuotes(words, word, false)
    else if afterQuote then AfterQuote(words, word)
    else if inWord then InWord(words, word)
    else Between(words)
  }

  method SplitCommandLine(line: string) returns (split: Words)
    ensures split == Split(line)
  {
    var words: seq<string> := [];
    var word: string := [];
    var inWord, inQuotes, afterQuote := false, false, false;
    var i := 0;
    assert line[0..] == line;
    while i < |line|
      invariant i <= |line|
      invariant inQuotes || afterQuote ==> inWord
      invariant !(inQuotes && afterQuote) && (!inWord ==> word == [])
      invariant Finish(Feed(Reading(words, word, inWord, inQuotes, afterQuote), line[i..])) == Split(line)
    {
      var c := line[i];
      ghost var s := Reading(words, word, inWord, inQuotes, afterQuote);
      assert line[i..][1..] == line[i + 1..];
      if Step(s, c) == Bad {
        FeedBad(line[i + 1..]);
      }
      if (c as int < 0x20 && !(c == '\t' && !inQuotes)) || c as int == 0x7F {
        return NoWords;
      }
      if inQuotes {
        if c == '\\' && i + 1 < |line| && (line[i + 1] == '"' || line[i + 1] == '\\') {
          assert line[i + 1..][1..] == line[i + 2..];
          word := word + [line[i + 1]];
          i := i + 1;
        } else if c == '"' {
          inQuotes := false;
          afterQuote := true;
        } else {
          Lookahead(words, word, c, line[i + 1..]);
          word := word + [c];
        }
        i := i + 1;
        continue;
      }
      i := i + 1;
      if c == ' ' || c == '\t' {
        if inWord {
          words := words + [word];
          word := [];
          inWord := false;
        }
        afterQuote := false;
        continue;
      }
      if afterQuote {
        return NoWords;
      }
      if c == '"' {
        if inWord {
          return NoWords;
        }
        inWord, inQuotes := true, true;
        continue;
      }
      if !IsPlain(c) {
        return NoWords;
      }
      inWord := true;
      assert [] + [c] == [c];
      word := word + [c];
    }
    if inQuotes {
      return NoWords;
    }
    if inWord {
      words := words + [word];
    }
    split := Words(words);
  }

  // A backslash that nothing follows which it could escape is just one.
  lemma Lookahead(words: seq<string>, word: string, c: char, rest: string)
    requires !IsControl(c) && c != '"' && (c == '\\' ==> rest == [] || (rest[0] != '"' && rest[0] != '\\'))
    ensures Finish(Feed(Step(InQuotes(words, word, false), c), rest)) == Finish(Feed(InQuotes(words, word + [c], false), rest))
  {
  }

  // ---- Quoting ----

  // A control character is sent as a space.
  function Cleaned(text: string): (clean: string)
    ensures |clean| == |text|
    ensures forall i :: 0 <= i < |text| ==> clean[i] == if IsControl(text[i]) then ' ' else text[i]
  {
    seq(|text|, i requires 0 <= i < |text| => if IsControl(text[i]) then ' ' else text[i])
  }

  function QuotedChar(c: char): string {
    if c == '"' || c == '\\' then ['\\', c] else if IsControl(c) then [' '] else [c]
  }

  function QuotedInside(text: string): string {
    if text == [] then [] else QuotedInside(text[..|text| - 1]) + QuotedChar(text[|text| - 1])
  }

  method Quoted(text: string) returns (quoted: string)
    ensures quoted == ['"'] + QuotedInside(text) + ['"']
  {
    quoted := ['"'];
    for i := 0 to |text|
      invariant quoted == ['"'] + QuotedInside(text[..i])
    {
      assert text[..i + 1][..i] == text[..i];
      var c := text[i];
      if c == '"' || c == '\\' {
        quoted := quoted + ['\\'];
        quoted := quoted + [c];
      } else if IsControl(c) {
        quoted := quoted + [' '];
      } else {
        quoted := quoted + [c];
      }
    }
    assert text[..|text|] == text;
    quoted := quoted + ['"'];
  }

  lemma {:induction false} QuotedRead(words: seq<string>, text: string)
    ensures Feed(InQuotes(words, [], false), QuotedInside(text)) == InQuotes(words, Cleaned(text), false)
    decreases |text|
  {
    if text == [] {
      assert Cleaned(text) == [];
    } else {
      var before, c := text[..|text| - 1], text[|text| - 1];
      QuotedRead(words, before);
      FeedMore(InQuotes(words, [], false), QuotedInside(before), QuotedChar(c));
      QuotedCharRead(words, Cleaned(before), c);
      assert Cleaned(text) == Cleaned(before) + [if IsControl(c) then ' ' else c];
    }
  }

  lemma QuotedCharRead(words: seq<string>, word: string, c: char)
    ensures Feed(InQuotes(words, word, false), QuotedChar(c)) == InQuotes(words, word + [if IsControl(c) then ' ' else c], false)
  {
    var s := InQuotes(words, word, false);
    if c == '"' || c == '\\' {
      assert ['\\', c][1..] == [c] && [c][1..] == [];
      assert Feed(s, ['\\', c]) == Feed(Step(s, '\\'), [c]) == Step(Step(s, '\\'), c);
    } else {
      var d := if IsControl(c) then ' ' else c;
      assert [d][1..] == [];
      assert Feed(s, [d]) == Step(s, d);
    }
  }

  lemma FeedOne(s: State, c: char, rest: string)
    ensures Feed(s, [c] + rest) == Feed(Step(s, c), rest)
  {
    assert ([c] + rest)[1..] == rest;
  }

  // Quoted, any text at all is one word.
  lemma QuotedIsOneWord(words: seq<string>, text: string, rest: string)
    ensures Feed(Between(words), (['"'] + QuotedInside(text) + ['"']) + ([' '] + rest)) == Feed(Between(words + [Cleaned(text)]), rest)
  {
    var inside := QuotedInside(text);
    var tail := ['"'] + ([' '] + rest);
    assert (['"'] + inside + ['"']) + ([' '] + rest) == ['"'] + (inside + tail);
    FeedOne(Between(words), '"', inside + tail);
    FeedMore(InQuotes(words, [], false), inside, tail);
    QuotedRead(words, text);
    FeedOne(InQuotes(words, Cleaned(text), false), '"', [' '] + rest);
    FeedOne(AfterQuote(words, Cleaned(text)), ' ', rest);
  }

  lemma {:induction false} PlainRead(words: seq<string>, word: string)
    requires IsPlainWord(word)
    ensures Feed(Between(words), word) == InWord(words, word)
    decreases |word|
  {
    var before, c := word[..|word| - 1], word[|word| - 1];
    assert word == before + [c] && IsPlain(c);
    FeedMore(Between(words), before, [c]);
    assert [c][1..] == [];
    if before != [] {
      assert forall i :: 0 <= i < |before| ==> before[i] == word[i];
      PlainRead(words, before);
    }
  }

  // A plain word is one as it is.
  lemma PlainIsOneWord(words: seq<string>, word: string, rest: string)
    requires IsPlainWord(word)
    ensures Feed(Between(words), word + ([' '] + rest)) == Feed(Between(words + [word]), rest)
    ensures Finish(Feed(Between(words), word)) == Words(words + [word])
  {
    FeedMore(Between(words), word, [' '] + rest);
    PlainRead(words, word);
    FeedOne(InWord(words, word), ' ', rest);
  }

  // How much of the text so far went into words.
  function Size(words: seq<string>): nat {
    if words == [] then 0 else Size(words[..|words| - 1]) + |words[|words| - 1]|
  }

  function Taken(s: State): nat {
    match s
    case Between(words) => Size(words)
    case InWord(words, word) => Size(words) + |word|
    case InQuotes(words, word, escaping) => Size(words) + |word| + if escaping then 1 else 0
    case AfterQuote(words, word) => Size(words) + |word|
    case Bad => 0
  }

  lemma SizeMore(words: seq<string>, word: string)
    ensures Size(words + [word]) == Size(words) + |word|
  {
    assert (words + [word])[..|words|] == words;
  }

  lemma StepTakes(s: State, c: char)
    ensures Step(s, c) != Bad ==> Taken(Step(s, c)) <= Taken(s) + 1
    ensures (s.Between? || s.InWord?) && !IsPlain(c) && Step(s, c) != Bad ==> Taken(Step(s, c)) == Taken(s)
  {
    if s.InWord? || s.AfterQuote? {
      SizeMore(s.words, s.word);
    }
  }

  lemma {:induction false} TakesNoMore(s: State, text: string)
    ensures var f := Finish(Feed(s, text)); f.Words? ==> Size(f.words) <= Taken(s) + |text|
    decreases |text|
  {
    if text == [] {
      if s.InWord? || s.AfterQuote? {
        SizeMore(s.words, s.word);
      }
    } else {
      StepTakes(s, text[0]);
      TakesNoMore(Step(s, text[0]), text[1..]);
      FeedBad(text[1..]);
    }
  }

  // If all of it did it is plain.
  lemma {:induction false} TakesAll(s: State, text: string)
    requires s.Between? || s.InWord?
    ensures var f := Finish(Feed(s, text)); f.Words? && Size(f.words) == Taken(s) + |text| ==>
              forall i :: 0 <= i < |text| ==> IsPlain(text[i])
    decreases |text|
  {
    if text != [] {
      var c, next := text[0], Step(s, text[0]);
      StepTakes(s, c);
      TakesNoMore(next, text[1..]);
      FeedBad(text[1..]);
      if IsPlain(c) {
        TakesAll(next, text[1..]);
        assert forall i :: 0 < i < |text| ==> text[i] == text[1..][i - 1];
        if s.Between? {
          assert Taken(next) == Taken(s) + 1;
        }
      }
    }
  }

  // So only a plain word is a word that is all there is of it.
  lemma OnlyPlainIsItself(words: seq<string>, text: string)
    ensures Finish(Feed(Between(words), text)) == Words(words + [text]) <==> IsPlainWord(text)
  {
    TakesAll(Between(words), text);
    SizeMore(words, text);
    if IsPlainWord(text) {
      PlainIsOneWord(words, text, []);
    }
  }

  // ---- What a command says ----

  datatype Confirmed = NoNet | Net(name: string)

  datatype Command =
    | Version | ListNets
    | Discard(file: string)
    | Export(whole: bool, name: string)
    | Import(net: bool, confirmed: Confirmed, file: string)
    | NotACommand

  predicate IsOption(word: string) {
    |word| > 1 && word[0] == '-' && word[1] == '-'
  }

  function Understood(words: seq<string>): Command {
    if words == [] then NotACommand
    else if words[0] == "version" then if |words| == 1 then Version else NotACommand
    else if words[0] == "discard-upload" then if |words| == 2 then Discard(words[1]) else NotACommand
    else if words[0] == "list-nets" then if |words| == 1 then ListNets else NotACommand
    else if words[0] == "export-net" || words[0] == "export-sessions" then
      if |words| == 2 && words[1] != [] then Export(words[0] == "export-net", words[1]) else NotACommand
    else if words[0] == "import-session" || words[0] == "import-net" then
      if |words| > 1 && words[1] == "--confirm-net" then
        if |words| == 4 && !IsOption(words[3]) then Import(words[0] == "import-net", Net(words[2]), words[3]) else NotACommand
      else if |words| == 2 && !IsOption(words[1]) then Import(words[0] == "import-net", NoNet, words[1])
      else NotACommand
    else NotACommand
  }

  function Meaning(split: Words): Command {
    match split
    case NoWords => NotACommand
    case Words(words) => Understood(words)
  }

  function Parsed(line: string): Command {
    Meaning(Split(line))
  }

  method ParseRemoteCommand(line: string) returns (command: Command)
    ensures command == Parsed(line)
  {
    var split := SplitCommandLine(line);
    if split.NoWords? || split.words == [] {
      return NotACommand;
    }
    var words := split.words;
    if words[0] == "version" {
      return if |words| == 1 then Version else NotACommand;
    }
    if words[0] == "discard-upload" {
      return if |words| == 2 then Discard(words[1]) else NotACommand;
    }
    if words[0] == "list-nets" {
      return if |words| == 1 then ListNets else NotACommand;
    }
    if words[0] == "export-net" || words[0] == "export-sessions" {
      return if |words| != 2 || words[1] == [] then NotACommand else Export(words[0] == "export-net", words[1]);
    }
    if words[0] != "import-session" && words[0] != "import-net" {
      return NotACommand;
    }
    var confirmed := NoNet;
    var next := 1;
    if next < |words| && words[next] == "--confirm-net" {
      if next + 1 >= |words| {
        return NotACommand;
      }
      confirmed := Net(words[next + 1]);
      next := next + 2;
    }
    if next >= |words| || IsOption(words[next]) || next + 1 != |words| {
      return NotACommand;
    }
    command := Import(words[0] == "import-net", confirmed, words[next]);
  }

  const CONFIRM: string := "--confirm-net"

  function ImportName(net: bool): string {
    if net then "import-net" else "import-session"
  }

  const DISCARD: string := "discard-upload"

  // The command that imports an upload. It is understood as meant, whatever the
  // net is called, exactly if the file's name is a plain word and no option.
  method ImportCommand(remoteName: string, confirmNet: string, net: bool) returns (command: string)
    ensures Parsed(command) == Import(net, if confirmNet == [] then NoNet else Net(Cleaned(confirmNet)), remoteName)
            <==> IsPlainWord(remoteName) && !IsOption(remoteName)
  {
    var name := ImportName(net);
    NamesArePlain(net);
    if confirmNet == [] {
      command := name + ([' '] + remoteName);
      NamedRead(name, remoteName);
      ImportMeant(net, remoteName, Split(command));
      return;
    }
    var quoted := Quoted(confirmNet);
    command := name + ([' '] + (CONFIRM + ([' '] + (quoted + ([' '] + remoteName)))));
    ConfirmedRead(name, CONFIRM, confirmNet, remoteName);
    ConfirmedMeant(net, Cleaned(confirmNet), remoteName, Split(command));
  }

  method DiscardCommand(remoteName: string) returns (command: string)
    ensures Parsed(command) == Discard(remoteName) <==> IsPlainWord(remoteName)
  {
    var name := DISCARD;
    NamesArePlain(true);
    command := name + ([' '] + remoteName);
    NamedRead(name, remoteName);
    DiscardMeant(remoteName, Split(command));
  }

  lemma NamesArePlain(net: bool)
    ensures IsPlainWord(ImportName(net)) && IsPlainWord(CONFIRM) && IsPlainWord(DISCARD)
  {
  }

  lemma NamedRead(name: string, file: string)
    requires IsPlainWord(name)
    ensures Split(name + ([' '] + file)) == Words([name, file]) <==> IsPlainWord(file)
  {
    PlainIsOneWord([], name, file);
    OnlyPlainIsItself([name], file);
    assert [] + [name] == [name] && [name] + [file] == [name, file];
  }

  lemma ConfirmedRead(name: string, option: string, confirmNet: string, file: string)
    requires IsPlainWord(name) && IsPlainWord(option)
    ensures
      var quoted := ['"'] + QuotedInside(confirmNet) + ['"'];
      Split(name + ([' '] + (option + ([' '] + (quoted + ([' '] + file)))))) == Words([name, option, Cleaned(confirmNet), file])
      <==> IsPlainWord(file)
  {
    var quoted, clean := ['"'] + QuotedInside(confirmNet) + ['"'], Cleaned(confirmNet);
    var last := quoted + ([' '] + file);
    PlainIsOneWord([], name, option + ([' '] + last));
    assert [] + [name] == [name];
    PlainIsOneWord([name], option, last);
    assert [name] + [option] == [name, option];
    QuotedIsOneWord([name, option], confirmNet, file);
    assert [name, option] + [clean] == [name, option, clean];
    OnlyPlainIsItself([name, option, clean], file);
    assert [name, option, clean] + [file] == [name, option, clean, file];
  }

  lemma ImportMeant(net: bool, file: string, split: Words)
    ensures Meaning(split) == Import(net, NoNet, file) <==> split == Words([ImportName(net), file]) && !IsOption(file)
  {
  }

  lemma ConfirmedMeant(net: bool, confirmed: string, file: string, split: Words)
    ensures Meaning(split) == Import(net, Net(confirmed), file)
            <==> split == Words([ImportName(net), CONFIRM, confirmed, file]) && !IsOption(file)
  {
  }

  lemma DiscardMeant(file: string, split: Words)
    ensures Meaning(split) == Discard(file) <==> split == Words([DISCARD, file])
  {
  }
}
