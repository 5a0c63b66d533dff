// What an import answers: a few lines of text, printed by one side and read by
// the other.
module ResultText {
  import opened Bytes
  import opened ByteText
  import opened CommandText
  import opened Numerals

  datatype Status =
    Imported | Merged | AlreadyImported | NeedsConfirmation | NoMatch | Refused | Failed | Unreadable

  function StatusName(s: Status): string {
    match s
    case Imported => "imported"
    case Merged => "merged"
    case AlreadyImported => "already-imported"
    case NeedsConfirmation => "needs-confirmation"
    case NoMatch => "no-match"
    case Refused => "refused"
    case Failed => "error"
    case Unreadable => ""
  }

  function StatusOf(name: string): Status {
    if name == "imported" then Imported
    else if name == "merged" then Merged
    else if name == "already-imported" then AlreadyImported
    else if name == "needs-confirmation" then NeedsConfirmation
    else if name == "no-match" then NoMatch
    else if name == "refused" then Refused
    else if name == "error" then Failed
    else Unreadable
  }

  datatype Counts = NoCounts | Counts(newSessions: nat, newSavedStations: nat, differingSessions: nat)

  datatype Reply = Reply(status: Status, net: string, netId: nat, session: string, counts: Counts, message: string)

  // ---- Numbers ----

  function NumberText(n: nat): string {
    Text(Digits(n, Decimal))
  }

  predicate IsNumber(text: string) {
    text != [] && forall i :: 0 <= i < |text| ==> '0' <= text[i] <= '9'
  }

  // 0 for what isn't a number, or too long for one.
  function NumberOf(text: string, limit: nat): nat {
    if IsNumber(text) && |text| <= limit then
      var bytes := Raw(text);
      assert forall i :: 0 <= i < |bytes| ==> bytes[i] as char == text[i] && IsDigit(bytes[i], Decimal);
      Value(bytes, Decimal)
    else 0
  }

  lemma NumberComesBack(n: nat, limit: nat)
    requires limit > 0
    ensures IsNumber(NumberText(n)) && Cleaned(NumberText(n)) == NumberText(n)
    ensures NumberOf(NumberText(n), limit) == n <==> |NumberText(n)| <= limit
  {
    var digits := Digits(n, Decimal);
    forall i | 0 <= i < |digits|
      ensures '0' <= Text(digits)[i] <= '9'
    {
      assert IsDigit(digits[i], Decimal);
    }
    assert Cleaned(Text(digits)) == Text(digits);
    TextOnce(Raw(Text(digits)), digits);
    DigitsValue(n, Decimal);
    if |digits| > limit {
      assert n != 0 by {
        assert |Digits(0, Decimal)| == 1;
      }
    }
  }

  lemma TextOnce(a: seq<Byte>, b: seq<Byte>)
    requires Text(a) == Text(b)
    ensures a == b
  {
    forall i | 0 <= i < |a|
      ensures a[i] == b[i]
    {
      assert Text(a)[i] == Text(b)[i];
    }
  }

  // ---- Printing ----

  datatype Key = StatusKey | NetKey | NetIdKey | SessionKey | NewSessionsKey | NewSavedKey | DifferingKey | MessageKey | OtherKey

  function KeyName(k: Key): string {
    match k
    case StatusKey => "status"
    case NetKey => "net"
    case NetIdKey => "net-id"
    case SessionKey => "session"
    case NewSessionsKey => "new-sessions"
    case NewSavedKey => "new-saved-stations"
    case DifferingKey => "differing-sessions"
    case MessageKey => "message"
    case OtherKey => ""
  }

  const KEYS: seq<Key> :=
    [StatusKey, NetKey, NetIdKey, SessionKey, MessageKey, NewSessionsKey, NewSavedKey, DifferingKey]

  // The key of this name, from the table's `k`th on.
  function KeyFrom(name: string, k: nat): Key
    decreases |KEYS| - k
  {
    if k >= |KEYS| then OtherKey else if name == KeyName(KEYS[k]) then KEYS[k] else KeyFrom(name, k + 1)
  }

  function KeyOf(name: string): Key {
    KeyFrom(name, 0)
  }

  datatype Field = Field(key: Key, value: string)

  function LineOf(f: Field): string {
    KeyName(f.key) + (": " + Cleaned(f.value))
  }

  function Printed(fields: seq<Field>): string {
    if fields == [] then [] else Printed(fields[..|fields| - 1]) + (LineOf(fields[|fields| - 1]) + "\n")
  }

  const HEADER: string := "QUICKLOGGER-RESULT 1"

  // What there is to say, in order.
  function NetFields(r: Reply, hasNet: bool): seq<Field> {
    var fields := [] + [Field(StatusKey, StatusName(r.status))];
    if hasNet then fields + [Field(NetKey, r.net)] + [Field(NetIdKey, NumberText(r.netId))] else fields
  }

  function SessionFields(r: Reply, hasNet: bool): seq<Field> {
    var fields := NetFields(r, hasNet);
    if r.session != [] then fields + [Field(SessionKey, r.session)] else fields
  }

  function WithCounts(fields: seq<Field>, c: Counts): seq<Field>
    requires c.Counts?
  {
    fields + [Field(NewSessionsKey, NumberText(c.newSessions))] + [Field(NewSavedKey, NumberText(c.newSavedStations))]
    + [Field(DifferingKey, NumberText(c.differingSessions))]
  }

  function CountFields(r: Reply, hasNet: bool): seq<Field> {
    var fields := SessionFields(r, hasNet);
    if r.counts.Counts? then WithCounts(fields, r.counts) else fields
  }

  function FieldsOf(r: Reply, hasNet: bool): seq<Field> {
    var fields := CountFields(r, hasNet);
    if r.message != [] then fields + [Field(MessageKey, r.message)] else fields
  }

  predicate IsPrinted(output: string, fields: seq<Field>) {
    output == HEADER + "\n" + Printed(fields)
  }

  lemma PrintedMore(output: string, fields: seq<Field>, f: Field)
    requires IsPrinted(output, fields)
    ensures IsPrinted(output + (LineOf(f) + "\n"), fields + [f])
  {
    assert (fields + [f])[..|fields|] == fields;
    Associates(HEADER + "\n", Printed(fields), LineOf(f) + "\n");
  }

  lemma Associates(a: string, b: string, c: string)
    ensures a + b + c == a + (b + c)
  {
  }

  method AppendLine(output: string, key: string, value: string) returns (more: string)
    ensures more == output + (key + (": " + Cleaned(value)) + "\n")
  {
    ghost var clean := Cleaned(value);
    more := output + key;
    more := more + ": ";
    ghost var before := more;
    for i := 0 to |value|
      invariant more == before + clean[..i]
    {
      more := more + [if IsControl(value[i]) then ' ' else value[i]];
    }
    assert clean[..|value|] == clean;
    more := more + "\n";
  }

  method AppendField(output: string, key: Key, value: string, ghost fields: seq<Field>) returns (more: string, ghost next: seq<Field>)
    requires IsPrinted(output, fields)
    ensures IsPrinted(more, next) && next == fields + [Field(key, value)]
  {
    more := AppendLine(output, KeyName(key), value);
    next := fields + [Field(key, value)];
    PrintedMore(output, fields, Field(key, value));
  }

  method AppendCounts(output: string, c: Counts, ghost fields: seq<Field>) returns (more: string, ghost next: seq<Field>)
    requires IsPrinted(output, fields) && c.Counts?
    ensures IsPrinted(more, next)
    ensures next == WithCounts(fields, c)
  {
    more, next := AppendField(output, NewSessionsKey, NumberText(c.newSessions), fields);
    more, next := AppendField(more, NewSavedKey, NumberText(c.newSavedStations), next);
    more, next := AppendField(more, DifferingKey, NumberText(c.differingSessions), next);
  }

  method MakeResult(r: Reply, hasNet: bool) returns (output: string)
    ensures IsPrinted(output, FieldsOf(r, hasNet))
  {
    output := HEADER + "\n";
    assert output + [] == output && Printed([]) == [];
    ghost var fields: seq<Field> := [];
    output, fields := AppendField(output, StatusKey, StatusName(r.status), fields);
    if hasNet {
      output, fields := AppendField(output, NetKey, r.net, fields);
      output, fields := AppendField(output, NetIdKey, NumberText(r.netId), fields);
    }
    assert fields == NetFields(r, hasNet);
    if r.session != [] {
      output, fields := AppendField(output, SessionKey, r.session, fields);
    }
    assert fields == SessionFields(r, hasNet);
    if r.counts.Counts? {
      output, fields := AppendCounts(output, r.counts, fields);
    }
    assert fields == CountFields(r, hasNet);
    if r.message != [] {
      output, fields := AppendField(output, MessageKey, r.message, fields);
    }
    assert fields == FieldsOf(r, hasNet);
  }

  // ---- Reading ----

  // The lines ended so far, and what there is of another.
  datatype Cut = Cut(lines: seq<string>, part: string)

  function CutUp(text: string): Cut {
    if text == [] then Cut([], [])
    else
      var before, c := CutUp(text[..|text| - 1]), text[|text| - 1];
      if c == '\n' then Cut(before.lines + [before.part], []) else before.(part := before.part + [c])
  }

  function Lines(text: string): seq<string> {
    var cut := CutUp(text);
    if cut.part == [] then cut.lines else cut.lines + [cut.part]
  }

  function Trimmed(line: string): string {
    if line != [] && line[|line| - 1] == '\r' then line[..|line| - 1] else line
  }

  // Where the first colon with a space after it is, or the end.
  function ColonAt(line: string): (n: nat)
    ensures n == |line| || (n + 1 < |line| && line[n] == ':' && line[n + 1] == ' ')
  {
    if line == [] then 0
    else if |line| > 1 && line[0] == ':' && line[1] == ' ' then 0
    else ColonAt(line[1..]) + 1
  }

  const BLANK: Reply := Reply(Unreadable, [], 0, [], NoCounts, [])

  // Nothing read yet, the fields so far, or an answer that isn't one.
  datatype Reading = Begun | Going(reply: Reply, hasStatus: bool) | Stopped(reply: Reply)

  function OrZero(c: Counts): Counts {
    if c.NoCounts? then Counts(0, 0, 0) else c
  }

  function Take(reply: Reply, key: Key, value: string): Reply {
    match key
    case NetKey => reply.(net := value)
    case NetIdKey => reply.(netId := NumberOf(value, 18))
    case SessionKey => reply.(session := value)
    case MessageKey => reply.(message := value)
    case NewSessionsKey => reply.(counts := OrZero(reply.counts).(newSessions := NumberOf(value, 6)))
    case NewSavedKey => reply.(counts := OrZero(reply.counts).(newSavedStations := NumberOf(value, 6)))
    case DifferingKey => reply.(counts := OrZero(reply.counts).(differingSessions := NumberOf(value, 6)))
    case _ => reply
  }

  function TakeField(s: Reading, key: Key, value: string): Reading
    requires s.Going?
  {
    if key != StatusKey then s.(reply := Take(s.reply, key, value))
    else
      var status := StatusOf(value);
      if status == Unreadable then Stopped(s.reply.(status := Unreadable)) else Going(s.reply.(status := status), true)
  }

  function ReadLine(s: Reading, text: string): Reading {
    var line := Trimmed(text);
    match s
    case Begun => if line == HEADER then Going(BLANK, false) else Stopped(BLANK)
    case Stopped(_) => s
    case Going(_, _) =>
      var colon := ColonAt(line);
      if colon == |line| then s else TakeField(s, KeyOf(line[..colon]), line[colon + 2..])
  }

  function ReadAll(lines: seq<string>): Reading {
    if lines == [] then Begun else ReadLine(ReadAll(lines[..|lines| - 1]), lines[|lines| - 1])
  }

  function Finish(s: Reading): Reply {
    match s
    case Begun => BLANK
    case Stopped(reply) => reply
    case Going(reply, hasStatus) =>
      if !hasStatus || (reply.status == NeedsConfirmation && reply.net == []) then reply.(status := Unreadable) else reply
  }

  function Parsed(output: string): Reply {
    Finish(ReadAll(Lines(output)))
  }

  lemma CutOne(text: string, c: char)
    ensures CutUp(text + [c])
            == if c == '\n' then Cut(CutUp(text).lines + [CutUp(text).part], []) else CutUp(text).(part := CutUp(text).part + [c])
  {
    assert (text + [c])[..|text|] == text;
  }

  // A line ends the one begun, and nothing else.
  lemma {:induction false} CutLine(text: string, line: string)
    requires '\n' !in line
    ensures CutUp(text + line) == CutUp(text).(part := CutUp(text).part + line)
    decreases |line|
  {
    if line == [] {
      assert text + line == text && CutUp(text).part + line == CutUp(text).part;
    } else {
      var before, c := line[..|line| - 1], line[|line| - 1];
      assert line == before + [c];
      CutLine(text, before);
      assert text + line == (text + before) + [c];
      CutOne(text + before, c);
      assert CutUp(text).part + line == CutUp(text).part + before + [c];
    }
  }

  // What was cut stays.
  lemma {:induction false} CutStays(text: string, n: nat) returns (more: seq<string>)
    requires n <= |text|
    ensures CutUp(text).lines == CutUp(text[..n]).lines + more
    decreases |text|
  {
    if n == |text| {
      assert text[..n] == text;
      more := [];
    } else {
      var before := text[..|text| - 1];
      more := CutStays(before, n);
      assert before[..n] == text[..n];
      if text[|text| - 1] == '\n' {
        more := more + [CutUp(before).part];
      }
    }
  }

  // Where the line at `start` ends.
  method FindNewline(text: string, start: nat) returns (end: nat)
    requires start <= |text|
    ensures start <= end <= |text| && '\n' !in text[start..end] && (end < |text| ==> text[end] == '\n')
  {
    end := start;
    while end < |text| && text[end] != '\n'
      invariant start <= end <= |text| && '\n' !in text[start..end]
    {
      end := end + 1;
    }
  }

  // A whole line after whole lines, with and without its end.
  lemma CutNext(text: string, lines: seq<string>, line: string, withLine: string, withEnd: string)
    requires CutUp(text) == Cut(lines, []) && '\n' !in line && withLine == text + line && withEnd == withLine + ['\n']
    ensures CutUp(withLine) == Cut(lines, line) && CutUp(withEnd) == Cut(lines + [line], [])
  {
    CutLine(text, line);
    assert [] + line == line;
    CutOne(withLine, '\n');
  }

  lemma ReadMore(lines: seq<string>, line: string)
    ensures ReadAll(lines + [line]) == ReadLine(ReadAll(lines), line)
  {
    assert (lines + [line])[..|lines|] == lines;
  }

  lemma {:induction false} StoppedStays(lines: seq<string>, more: seq<string>)
    requires ReadAll(lines).Stopped?
    ensures ReadAll(lines + more) == ReadAll(lines)
    decreases |more|
  {
    if more == [] {
      assert lines + more == lines;
    } else {
      var before, last := more[..|more| - 1], more[|more| - 1];
      StoppedStays(lines, before);
      assert lines + more == (lines + before) + [last];
      ReadMore(lines + before, last);
    }
  }

  // The lines up to `start`, or all of them.
  predicate IsDone(output: string, start: nat, done: seq<string>) {
    if start <= |output| then CutUp(output[..start]) == Cut(done, []) else start == |output| + 1 && Lines(output) == done
  }

  lemma LineDone(output: string, start: nat, end: nat, done: seq<string>)
    requires start <= end <= |output| && start < |output| && IsDone(output, start, done)
    requires '\n' !in output[start..end] && (end < |output| ==> output[end] == '\n')
    ensures IsDone(output, end + 1, done + [output[start..end]])
  {
    var before, line := output[..start], output[start..end];
    CutNext(before, done, line, before + line, before + line + ['\n']);
    assert output[..end] == before + line;
    if end < |output| {
      assert output[..end + 1] == before + line + ['\n'];
    } else {
      WholeCut(output, before + line, done, line);
    }
  }

  lemma WholeCut(output: string, whole: string, lines: seq<string>, line: string)
    requires output == whole && CutUp(whole) == Cut(lines, line) && line != []
    ensures Lines(output) == lines + [line]
  {
  }

  method ParseImportReply(output: string) returns (reply: Reply)
    ensures reply == Parsed(output)
  {
    ghost var start, done;
    var read;
    read, start, done := ReadLines(output);
    if read.Stopped? {
      AfterStop(output, start, done, read);
      return read.reply;
    }
    AllDone(output, start, done, read);
    reply := Finish(read);
  }

  // Line after line, until one says that this is no answer.
  method ReadLines(output: string) returns (read: Reading, ghost start: nat, ghost done: seq<string>)
    ensures IsDone(output, start, done) && read == ReadAll(done)
    ensures read.Stopped? || |output| <= start
  {
    read := Begun;
    var at := 0;
    start, done := 0, [];
    while at < |output| && !read.Stopped?
      invariant at == start <= |output| + 1 && IsDone(output, start, done) && read == ReadAll(done)
      decreases |output| + 1 - at
    {
      var end := FindNewline(output, at);
      var line := output[at..end];
      LineDone(output, at, end, done);
      read := ReadOne(read, line, done);
      done := done + [line];
      at := end + 1;
      start := at;
    }
  }

  lemma AllDone(output: string, start: nat, done: seq<string>, read: Reading)
    requires |output| <= start && IsDone(output, start, done) && read == ReadAll(done)
    ensures Parsed(output) == Finish(read)
  {
    if start == |output| {
      assert output[..start] == output;
    }
  }

  method ReadOne(before: Reading, line: string, ghost done: seq<string>) returns (after: Reading)
    requires before == ReadAll(done)
    ensures after == ReadAll(done + [line])
  {
    after := ReadLine(before, line);
    ReadMore(done, line);
  }

  lemma AfterStop(output: string, start: nat, done: seq<string>, read: Reading)
    requires IsDone(output, start, done) && read == ReadAll(done) && read.Stopped?
    ensures Parsed(output) == read.reply
  {
    if start <= |output| {
      var more := CutStays(output, start);
      if CutUp(output).part != [] {
        assert Lines(output) == done + (more + [CutUp(output).part]);
        StoppedStays(done, more + [CutUp(output).part]);
      } else {
        StoppedStays(done, more);
      }
    }
  }

  // ---- The round trip ----

  lemma LinesMore(text: string, line: string)
    requires CutUp(text).part == [] && '\n' !in line
    ensures CutUp(text + (line + "\n")) == Cut(Lines(text) + [line], [])
  {
    CutNext(text, CutUp(text).lines, line, text + line, text + line + ['\n']);
    assert text + (line + "\n") == text + line + ['\n'];
  }

  lemma {:induction false} ColonIs(key: string, rest: string)
    requires ':' !in key
    ensures ColonAt(key + (": " + rest)) == |key|
  {
    var line := key + (": " + rest);
    if key != [] {
      assert line[1..] == key[1..] + (": " + rest);
      assert line[0] == key[0] && key[0] in key;
      ColonIs(key[1..], rest);
    }
  }

  lemma NamesAreKeys(k: Key)
    requires k != OtherKey
    ensures KeyOf(KeyName(k)) == k
  {
  }

  lemma NamesAreWords(k: Key)
    ensures ':' !in KeyName(k) && '\n' !in KeyName(k)
  {
  }

  lemma LineSplits(name: string, clean: string, line: string)
    requires ':' !in name && '\r' !in clean && line == name + (": " + clean)
    ensures Trimmed(line) == line && ColonAt(line) == |name|
    ensures line[..|name|] == name && line[|name| + 2..] == clean
  {
    ColonIs(name, clean);
    if clean == [] {
      assert line[|line| - 1] == ' ';
    } else {
      assert line[|line| - 1] == clean[|clean| - 1] && clean[|clean| - 1] in clean;
    }
  }

  // A printed line is read as what it says.
  lemma LineRead(s: Reading, f: Field)
    requires f.key != OtherKey && s.Going?
    ensures ReadLine(s, LineOf(f)) == TakeField(s, f.key, Cleaned(f.value)) && '\n' !in LineOf(f)
  {
    var name, clean, line := KeyName(f.key), Cleaned(f.value), LineOf(f);
    NamesAreKeys(f.key);
    NamesAreWords(f.key);
    NoLineBreaks(f.value);
    LineSplits(name, clean, line);
  }

  lemma NoLineBreaks(value: string)
    ensures '\r' !in Cleaned(value) && '\n' !in Cleaned(value)
  {
  }

  // What a reader makes of the fields printed; all readers do that know their
  // status.
  function Heard(fields: seq<Field>): Reading {
    if fields == [] then Going(BLANK, false)
    else
      var before, f := Heard(fields[..|fields| - 1]), fields[|fields| - 1];
      if before.Going? then TakeField(before, f.key, Cleaned(f.value)) else before
  }

  predicate AllKnown(fields: seq<Field>) {
    forall i :: 0 <= i < |fields| ==>
      fields[i].key != OtherKey && (fields[i].key == StatusKey ==> StatusOf(Cleaned(fields[i].value)) != Unreadable)
  }

  lemma {:induction false} PrintedRead(output: string, fields: seq<Field>)
    requires IsPrinted(output, fields) && AllKnown(fields)
    ensures CutUp(output).part == [] && ReadAll(Lines(output)) == Heard(fields) && Heard(fields).Going?
    decreases |fields|
  {
    if fields == [] {
      assert output == [] + (HEADER + "\n");
      LinesMore([], HEADER);
      assert [] + [HEADER] == [HEADER];
      ReadMore([], HEADER);
    } else {
      var before, f := fields[..|fields| - 1], fields[|fields| - 1];
      var text, line := HEADER + "\n" + Printed(before), LineOf(f);
      PrintedRead(text, before);
      LineRead(Heard(before), f);
      LinesMore(text, line);
      Associates(HEADER + "\n", Printed(before), line + "\n");
      ReadMore(Lines(text), line);
    }
  }

  lemma HeardMore(fields: seq<Field>, f: Field)
    requires Heard(fields).Going?
    ensures Heard(fields + [f]) == TakeField(Heard(fields), f.key, Cleaned(f.value))
  {
    assert (fields + [f])[..|fields|] == fields;
  }

  // The reply as it can be sent: on one line each, and nothing of a net without
  // one.
  function Sent(r: Reply, hasNet: bool): Reply {
    Reply(r.status, if hasNet then Cleaned(r.net) else [], if hasNet then r.netId else 0, Cleaned(r.session), r.counts, Cleaned(r.message))
  }

  predicate IsShort(n: nat, limit: nat) {
    |NumberText(n)| <= limit
  }

  // Whether its numbers are short enough, and it names the net it asks about.
  predicate IsReadable(r: Reply, hasNet: bool) {
    && (hasNet ==> IsShort(r.netId, 18))
    && (r.counts.Counts? ==>
          IsShort(r.counts.newSessions, 6) && IsShort(r.counts.newSavedStations, 6) && IsShort(r.counts.differingSessions, 6))
    && (r.status == NeedsConfirmation ==> hasNet && r.net != [])
  }

  lemma StatusNamed(s: Status)
    requires s != Unreadable
    ensures StatusOf(Cleaned(StatusName(s))) == s
  {
    assert Cleaned(StatusName(s)) == StatusName(s);
  }

  lemma NetHeard(r: Reply, hasNet: bool)
    requires r.status != Unreadable
    ensures Heard(NetFields(r, hasNet))
            == Going(Reply(r.status, if hasNet then Cleaned(r.net) else [],
                           if hasNet then NumberOf(NumberText(r.netId), 18) else 0, [], NoCounts, []), true)
  {
    var status := [] + [Field(StatusKey, StatusName(r.status))];
    StatusNamed(r.status);
    HeardMore([], status[0]);
    if hasNet {
      var net, id := Field(NetKey, r.net), Field(NetIdKey, NumberText(r.netId));
      HeardMore(status, net);
      HeardMore(status + [net], id);
      NumberComesBack(r.netId, 18);
    }
  }

  lemma SessionHeard(r: Reply, hasNet: bool, s: Reading)
    requires s.Going? && s == Heard(NetFields(r, hasNet)) && s.reply.session == []
    ensures Heard(SessionFields(r, hasNet)) == s.(reply := s.reply.(session := Cleaned(r.session)))
  {
    HeardMore(NetFields(r, hasNet), Field(SessionKey, r.session));
    assert Cleaned([]) == [];
  }

  lemma CountsHeard(fields: seq<Field>, c: Counts, s: Reading)
    requires c.Counts? && s.Going? && s == Heard(fields) && s.reply.counts == NoCounts
    ensures Heard(WithCounts(fields, c)) == s.(reply := s.reply.(counts := ShortCounts(c)))
  {
    var n, k, d := NumberText(c.newSessions), NumberText(c.newSavedStations), NumberText(c.differingSessions);
    NumberComesBack(c.newSessions, 6);
    NumberComesBack(c.newSavedStations, 6);
    NumberComesBack(c.differingSessions, 6);
    var one := fields + [Field(NewSessionsKey, n)];
    var two := one + [Field(NewSavedKey, k)];
    HeardMore(fields, Field(NewSessionsKey, n));
    HeardMore(one, Field(NewSavedKey, k));
    HeardMore(two, Field(DifferingKey, d));
  }

  // A count too long is none.
  function ShortCounts(c: Counts): Counts {
    if c.NoCounts? then c
    else Counts(NumberOf(NumberText(c.newSessions), 6), NumberOf(NumberText(c.newSavedStations), 6),
                NumberOf(NumberText(c.differingSessions), 6))
  }

  lemma MessageHeard(r: Reply, hasNet: bool, s: Reading)
    requires s.Going? && s == Heard(CountFields(r, hasNet)) && s.reply.message == []
    ensures Heard(FieldsOf(r, hasNet)) == s.(reply := s.reply.(message := Cleaned(r.message)))
  {
    HeardMore(CountFields(r, hasNet), Field(MessageKey, r.message));
    assert Cleaned([]) == [];
  }

  // Every result printed is read back as it was, exactly if it is readable.
  lemma ResultRoundTrip(r: Reply, hasNet: bool, output: string)
    requires r.status != Unreadable && IsPrinted(output, FieldsOf(r, hasNet))
    ensures Parsed(output) == Sent(r, hasNet) <==> IsReadable(r, hasNet)
  {
    var heard := AllHeard(r, hasNet);
    KeysAreKnown(r, hasNet);
    PrintedRead(output, FieldsOf(r, hasNet));
    NumberComesBack(r.netId, 18);
    CountsAreShort(r.counts);
  }

  lemma AllHeard(r: Reply, hasNet: bool) returns (heard: Reading)
    requires r.status != Unreadable
    ensures heard == Heard(FieldsOf(r, hasNet))
    ensures heard == Going(Sent(r, hasNet).(netId := if hasNet then NumberOf(NumberText(r.netId), 18) else 0,
                                            counts := ShortCounts(r.counts)), true)
  {
    NetHeard(r, hasNet);
    SessionHeard(r, hasNet, Heard(NetFields(r, hasNet)));
    if r.counts.Counts? {
      CountsHeard(SessionFields(r, hasNet), r.counts, Heard(SessionFields(r, hasNet)));
    }
    MessageHeard(r, hasNet, Heard(CountFields(r, hasNet)));
    heard := Heard(FieldsOf(r, hasNet));
  }

  lemma KeysAreKnown(r: Reply, hasNet: bool)
    requires r.status != Unreadable
    ensures AllKnown(FieldsOf(r, hasNet))
  {
    StatusNamed(r.status);
    var fields := NetFields(r, hasNet);
    assert AllKnown(fields) by {
      StatusIsKnown(r.status, [] + [Field(StatusKey, StatusName(r.status))]);
    }
    assert AllKnown(SessionFields(r, hasNet));
    assert AllKnown(CountFields(r, hasNet));
  }

  lemma StatusIsKnown(s: Status, fields: seq<Field>)
    requires s != Unreadable && fields == [Field(StatusKey, StatusName(s))]
    ensures AllKnown(fields)
  {
    StatusNamed(s);
  }

  lemma CountsAreShort(c: Counts)
    ensures ShortCounts(c) == c <==>
              (c.Counts? ==> IsShort(c.newSessions, 6) && IsShort(c.newSavedStations, 6) && IsShort(c.differingSessions, 6))
  {
    if c.Counts? {
      NumberComesBack(c.newSessions, 6);
      NumberComesBack(c.newSavedStations, 6);
      NumberComesBack(c.differingSessions, 6);
    }
  }
}
