// A Windows program gets its arguments as one string, which it splits again.
// What it splits it into is what the string was made of.
module WindowsArguments {
  predicate IsBlank(c: char) {
    c == ' ' || c == '\t'
  }

  // What needs quotes around it.
  predicate IsBreak(c: char) {
    IsBlank(c) || c == '\n' || c == 11 as char || c == '"'
  }

  predicate IsPlain(argument: string) {
    argument != [] && forall i :: 0 <= i < |argument| ==> !IsBreak(argument[i])
  }

  function Slashes(n: nat): string {
    seq(n, i => '\\')
  }

  // ---- How programs split it: the rules of CommandLineToArgvW ----

  // What has been read so far: some of the program's name, which may be in
  // quotes, or the name and some arguments. Within an argument there are
  // backslashes of which it isn't clear yet what they count for.
  datatype State =
    | Start
    | Naming(program: string, quoted: bool)
    | Between(program: string, arguments: seq<string>)
    | Within(program: string, arguments: seq<string>, word: string, slashes: nat, quoted: bool)

  // Backslashes count for themselves, but before a quote each two are one, and
  // one left over makes it a quote like any other. In the program's name they
  // are nothing special.
  function Step(s: State, c: char): State {
    match s
    case Start =>
      if c == '"' then Naming([], true) else if IsBlank(c) then Between([], []) else Naming([c], false)
    case Naming(program, quoted) =>
      if (if quoted then c == '"' else IsBlank(c)) then Between(program, []) else Naming(program + [c], quoted)
    case Between(program, arguments) =>
      if IsBlank(c) then s
      else if c == '\\' then Within(program, arguments, [], 1, false)
      else if c == '"' then Within(program, arguments, [], 0, true)
      else Within(program, arguments, [c], 0, false)
    case Within(program, arguments, word, slashes, quoted) =>
      if c == '\\' then s.(slashes := slashes + 1)
      else if c == '"' && slashes % 2 == 1 then s.(word := word + Slashes(slashes / 2) + [c], slashes := 0)
      else if c == '"' then s.(word := word + Slashes(slashes / 2), slashes := 0, quoted := !quoted)
      else if IsBlank(c) && !quoted then Between(program, arguments + [word + Slashes(slashes)])
      else s.(word := word + Slashes(slashes) + [c], slashes := 0)
  }

  function Feed(s: State, text: string): State
    decreases |text|
  {
    if text == [] then s else Step(Feed(s, text[..|text| - 1]), text[|text| - 1])
  }

  datatype Command = Command(program: string, arguments: seq<string>)

  function Finish(s: State): Command {
    match s
    case Start => Command([], [])
    case Naming(program, _) => Command(program, [])
    case Between(program, arguments) => Command(program, arguments)
    case Within(program, arguments, word, slashes, _) => Command(program, arguments + [word + Slashes(slashes)])
  }

  function Split(line: string): Command {
    Finish(Feed(Start, line))
  }

  lemma FeedOne(s: State, text: string, c: char)
    ensures Feed(s, text + [c]) == Step(Feed(s, text), c)
  {
    assert (text + [c])[..|text|] == text;
  }

  lemma {:induction false} FeedMore(s: State, a: string, b: string)
    ensures Feed(s, a + b) == Feed(Feed(s, a), b)
    decreases |b|
  {
    if b == [] {
      assert a + b == a;
    } else {
      var before, c := b[..|b| - 1], b[|b| - 1];
      FeedMore(s, a, before);
      assert a + b == (a + before) + [c];
      FeedOne(s, a + before, c);
    }
  }

  lemma {:induction false} FeedSlashes(s: State, n: nat)
    requires s.Within?
    ensures Feed(s, Slashes(n)) == s.(slashes := s.slashes + n)
    decreases n
  {
    if n > 0 {
      FeedSlashes(s, n - 1);
      assert Slashes(n) == Slashes(n - 1) + ['\\'];
      FeedOne(s, Slashes(n - 1), '\\');
    }
  }

  // ---- How it is made ----

  // The backslashes at an argument's end, and what comes before them.
  function Trailing(argument: string): (n: nat)
    ensures n <= |argument|
  {
    if argument == [] || argument[|argument| - 1] != '\\' then 0 else Trailing(argument[..|argument| - 1]) + 1
  }

  function Body(argument: string): string {
    argument[..|argument| - Trailing(argument)]
  }

  lemma {:induction false} BodyAndSlashes(argument: string)
    ensures argument == Body(argument) + Slashes(Trailing(argument))
  {
    if argument != [] && argument[|argument| - 1] == '\\' {
      var before := argument[..|argument| - 1];
      BodyAndSlashes(before);
      assert argument == before + ['\\'] && Body(argument) == Body(before);
      assert Slashes(Trailing(argument)) == Slashes(Trailing(before)) + ['\\'];
    }
  }

  // What it becomes between quotes, but for the backslashes at its end.
  function Escaped(argument: string): string {
    if argument == [] then []
    else
      var before, c := argument[..|argument| - 1], argument[|argument| - 1];
      if c == '\\' then Escaped(before)
      else if c == '"' then Escaped(before) + Slashes(2 * Trailing(before) + 1) + [c]
      else Escaped(before) + Slashes(Trailing(before)) + [c]
  }

  function Inside(argument: string): string {
    Escaped(argument) + Slashes(2 * Trailing(argument))
  }

  function Quoted(argument: string): string {
    if IsPlain(argument) then argument else ['"'] + Inside(argument) + ['"']
  }

  method AppendQuoted(line: string, argument: string) returns (result: string)
    ensures result == line + Quoted(argument)
  {
    if argument != [] && (forall i :: 0 <= i < |argument| ==> !IsBreak(argument[i])) {
      return line + argument;
    }
    result := line + ['"'];
    var backslashes := 0;
    for i := 0 to |argument|
      invariant result == line + (['"'] + Escaped(argument[..i]))
      invariant backslashes == Trailing(argument[..i])
    {
      var c := argument[i];
      ghost var before := argument[..i];
      ghost var more := argument[..i + 1];
      assert more[..i] == before;
      if c == '\\' {
        backslashes := backslashes + 1;
        continue;
      }
      if c == '"' {
        result := result + Slashes(backslashes * 2 + 1);
      } else {
        result := result + Slashes(backslashes);
      }
      backslashes := 0;
      result := result + [c];
    }
    assert argument[..|argument|] == argument;
    result := result + Slashes(backslashes * 2);
    result := result + ['"'];
  }

  // The program and the first `n` arguments.
  function Joined(program: string, arguments: seq<string>, n: nat): string
    requires n <= |arguments|
  {
    if n == 0 then Quoted(program) else Joined(program, arguments, n - 1) + [' '] + Quoted(arguments[n - 1])
  }

  // The program's name survives if it has no quote in it, and no backslash
  // right before the closing one.
  predicate NameSurvives(program: string) {
    '"' !in program && (IsPlain(program) || Trailing(program) == 0)
  }

  // Any arguments at all come back, if the name does; and it does exactly if it
  // looks like one that can.
  method WindowsCommandLine(program: string, arguments: seq<string>) returns (line: string)
    ensures Split(line) == Command(program, arguments) <==> NameSurvives(program)
  {
    line := JoinQuoted(program, arguments);
    AllRead(program, arguments);
  }

  method JoinQuoted(program: string, arguments: seq<string>) returns (line: string)
    ensures line == Joined(program, arguments, |arguments|)
  {
    line := AppendQuoted([], program);
    assert [] + Quoted(program) == Quoted(program);
    for index := 0 to |arguments|
      invariant line == Joined(program, arguments, index)
    {
      line := line + [' '];
      line := AppendQuoted(line, arguments[index]);
    }
  }

  // ---- That it comes back ----

  predicate SoFar(line: string, program: string, arguments: seq<string>) {
    if NameSurvives(program) then AtEnd(Feed(Start, line), program, arguments) else IsWrong(Feed(Start, line), program)
  }

  // All that was read is the program and these arguments, if nothing or a
  // space follows.
  predicate AtEnd(s: State, program: string, arguments: seq<string>) {
    Finish(s) == Command(program, arguments) && Step(s, ' ') == Between(program, arguments)
  }

  // Another program was read, for good.
  predicate IsWrong(s: State, program: string) {
    (s.Between? || s.Within?) && s.program != program
  }

  lemma {:induction false} StaysWrong(s: State, text: string, program: string)
    requires IsWrong(s, program)
    ensures IsWrong(Feed(s, text), program)
    decreases |text|
  {
    if text != [] {
      StaysWrong(s, text[..|text| - 1], program);
    }
  }

  lemma AllRead(program: string, arguments: seq<string>)
    ensures Split(Joined(program, arguments, |arguments|)) == Command(program, arguments) <==> NameSurvives(program)
  {
    JoinedRead(program, arguments, |arguments|);
    assert arguments[..|arguments|] == arguments;
  }

  lemma {:induction false} JoinedRead(program: string, arguments: seq<string>, n: nat)
    requires n <= |arguments|
    ensures SoFar(Joined(program, arguments, n), program, arguments[..n])
  {
    if n == 0 {
      NameRead(program);
    } else {
      JoinedRead(program, arguments, n - 1);
      var before, last := arguments[..n - 1], arguments[n - 1];
      NextRead(Joined(program, arguments, n - 1), program, before, last, Joined(program, arguments, n), arguments[..n]);
    }
  }

  // One argument more.
  lemma NextRead(line: string, program: string, arguments: seq<string>, argument: string, next: string, more: seq<string>)
    requires SoFar(line, program, arguments) && next == line + [' '] + Quoted(argument) && more == arguments + [argument]
    ensures SoFar(next, program, more)
  {
    var quoted := Quoted(argument);
    FeedOne(Start, line, ' ');
    FeedMore(Start, line + [' '], quoted);
    if NameSurvives(program) {
      ArgumentRead(program, arguments, argument);
    } else {
      StaysWrong(Feed(Start, line + [' ']), quoted, program);
    }
  }

  lemma ArgumentRead(program: string, arguments: seq<string>, argument: string)
    ensures AtEnd(Feed(Between(program, arguments), Quoted(argument)), program, arguments + [argument])
  {
    BodyAndSlashes(argument);
    if IsPlain(argument) {
      PlainRead(Between(program, arguments), argument);
    } else {
      QuotedRead(Between(program, arguments), argument, Inside(argument));
      assert argument + Slashes(0) == argument;
    }
  }

  lemma QuotedRead(s: State, argument: string, inside: string)
    requires s.Between? && inside == Inside(argument)
    ensures Feed(s, ['"'] + inside + ['"']) == Within(s.program, s.arguments, argument, 0, false)
  {
    var open, closing := Within(s.program, s.arguments, [], 0, true), Trailing(argument);
    FeedOne(s, [], '"');
    assert [] + ['"'] == ['"'];
    FeedMore(s, ['"'], inside);
    FeedOne(s, ['"'] + inside, '"');
    InsideRead(open, argument, Escaped(argument), closing);
    BodyAndSlashes(argument);
    QuoteCloses(open, Body(argument), closing);
  }

  // An even number of backslashes and a quote are half of them, and the end.
  lemma QuoteCloses(open: State, word: string, n: nat)
    requires open.Within? && open.quoted
    ensures Step(open.(word := word, slashes := 2 * n), '"') == open.(word := word + Slashes(n), slashes := 0, quoted := false)
  {
    assert 2 * n % 2 == 0 && 2 * n / 2 == n;
  }

  lemma InsideRead(open: State, argument: string, escaped: string, trailing: nat)
    requires open.Within? && open.quoted && open.word == [] && open.slashes == 0
    requires escaped == Escaped(argument) && trailing == Trailing(argument)
    ensures Feed(open, escaped + Slashes(2 * trailing)) == open.(word := Body(argument), slashes := 2 * trailing)
  {
    FeedMore(open, escaped, Slashes(2 * trailing));
    EscapedRead(open, argument);
    FeedSlashes(open.(word := Body(argument)), 2 * trailing);
  }

  lemma {:induction false} PlainRead(s: State, argument: string)
    requires s.Between? && IsPlain(argument)
    ensures Feed(s, argument) == Within(s.program, s.arguments, Body(argument), Trailing(argument), false)
    decreases |argument|
  {
    var before, c := argument[..|argument| - 1], argument[|argument| - 1];
    assert !IsBreak(c) && argument == before + [c];
    if before == [] {
      assert Feed(s, before) == s;
    } else {
      assert forall i :: 0 <= i < |before| ==> before[i] == argument[i];
      PlainRead(s, before);
      BodyAndSlashes(before);
    }
  }

  lemma {:induction false} EscapedRead(s: State, argument: string)
    requires s.Within? && s.quoted && s.word == [] && s.slashes == 0
    ensures Feed(s, Escaped(argument)) == s.(word := Body(argument))
    decreases |argument|
  {
    if argument != [] {
      var before, c := argument[..|argument| - 1], argument[|argument| - 1];
      EscapedRead(s, before);
      if c == '\\' {
        assert Body(argument) == Body(before);
      } else {
        assert argument == before + [c];
        EscapedNext(s, before, c);
      }
    }
  }

  lemma EscapedNext(s: State, before: string, c: char)
    requires s.Within? && s.quoted && s.slashes == 0 && c != '\\' && Feed(s, Escaped(before)) == s.(word := Body(before))
    ensures Feed(s, Escaped(before + [c])) == s.(word := Body(before + [c]))
  {
    var n, escaped, body := EscapedMore(before, c);
    LastRead(s, escaped, body, n, c);
  }

  lemma EscapedMore(before: string, c: char) returns (n: nat, escaped: string, body: string)
    requires c != '\\'
    ensures escaped == Escaped(before) && body == Body(before)
    ensures Escaped(before + [c]) == escaped + Slashes(if c == '"' then 2 * n + 1 else n) + [c]
    ensures Body(before + [c]) == body + Slashes(n) + [c]
  {
    n, escaped, body := Trailing(before), Escaped(before), Body(before);
    BodyAndSlashes(before);
    assert (before + [c])[..|before|] == before;
    assert Trailing(before + [c]) == 0;
  }

  lemma LastRead(s: State, escaped: string, body: string, n: nat, c: char)
    requires s.Within? && s.quoted && c != '\\' && Feed(s, escaped) == s.(word := body, slashes := 0)
    ensures Feed(s, escaped + Slashes(if c == '"' then 2 * n + 1 else n) + [c]) == s.(word := body + Slashes(n) + [c], slashes := 0)
  {
    var slashes := Slashes(if c == '"' then 2 * n + 1 else n);
    FeedMore(s, escaped, slashes);
    FeedSlashes(s.(word := body, slashes := 0), if c == '"' then 2 * n + 1 else n);
    FeedOne(s, escaped + slashes, c);
  }

  lemma NameRead(program: string)
    ensures NameSurvives(program) ==> AtEnd(Feed(Start, Quoted(program)), program, [])
    ensures !NameSurvives(program) ==> IsWrong(Feed(Start, Quoted(program)), program)
  {
    if IsPlain(program) {
      PlainName(program);
      assert forall i :: 0 <= i < |program| ==> !IsBreak(program[i]);
    } else {
      var inside, open := Inside(program), Naming([], true);
      FeedOne(Start, [], '"');
      assert [] + ['"'] == ['"'];
      FeedMore(Start, ['"'], inside);
      FeedOne(Start, ['"'] + inside, '"');
      QuotedName(inside);
      if '"' !in program {
        NothingEscaped(program);
        BodyAndSlashes(program);
        assert |inside| == |program| + Trailing(program);
        assert Trailing(program) == 0 ==> inside == program;
      }
    }
  }

  lemma {:induction false} PlainName(program: string)
    requires IsPlain(program)
    ensures Feed(Start, program) == Naming(program, false)
    decreases |program|
  {
    var before, c := program[..|program| - 1], program[|program| - 1];
    assert !IsBreak(c) && program == before + [c];
    if before == [] {
      assert Feed(Start, before) == Start;
    } else {
      assert forall i :: 0 <= i < |before| ==> before[i] == program[i];
      PlainName(before);
    }
  }

  // Between quotes the name is all there is before the next one.
  lemma {:induction false} QuotedName(text: string)
    ensures '"' !in text ==> Feed(Naming([], true), text) == Naming(text, true)
    ensures '"' in text ==>
              var s := Feed(Naming([], true), text);
              (s.Between? || s.Within?) && '"' !in s.program
    decreases |text|
  {
    if text != [] {
      var before, c := text[..|text| - 1], text[|text| - 1];
      assert text == before + [c];
      QuotedName(before);
    }
  }

  // Without quotes nothing but the end changes.
  lemma {:induction false} NothingEscaped(argument: string)
    requires '"' !in argument
    ensures Escaped(argument) == Body(argument) && '"' !in Inside(argument)
    decreases |argument|
  {
    if argument != [] {
      var before, c := argument[..|argument| - 1], argument[|argument| - 1];
      assert argument == before + [c];
      NothingEscaped(before);
      BodyAndSlashes(before);
    }
  }
}
