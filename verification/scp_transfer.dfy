// The old SCP protocol: files in, one at a time, each named only once it is
// whole; and one file out.
module ScpTransfer {
  import opened Bytes
  import opened ByteText
  import opened ScpStream
  import opened SftpPaths
  import opened UploadStore

  // The byte stream a transfer runs over. `input` is all that will come.
  class Channel {
    const input: seq<Byte>
    var at: nat
    var output: seq<Byte>
    // Whether the other side takes all that is sent.
    const alive: bool

    constructor (input: seq<Byte>, alive: bool)
      ensures this.input == input && this.alive == alive && at == 0 && output == []
    {
      this.input, this.alive, at, output := input, alive, 0, [];
    }

    method Read(n: nat) returns (ok: bool, data: seq<Byte>)
      requires at <= |input|
      modifies `at
      ensures ok <==> old(at) + n <= |input|
      ensures if ok then at == old(at) + n && data == input[old(at)..at] else at == |input|
    {
      if at + n <= |input| {
        ok, data := true, input[at..at + n];
        at := at + n;
      } else {
        ok, data := false, [];
        at := |input|;
      }
    }

    method Write(data: seq<Byte>) returns (ok: bool)
      modifies `output
      ensures old(output) <= output && (ok ==> output == old(output) + data) && (alive ==> ok)
    {
      ok := *;
      ok := ok || alive;
      if ok {
        output := output + data;
      }
    }
  }

  // What became of an announced file.
  datatype Received = SavedOne(s: Saved) | Refused | Unconfirmed

  // It was saved as it came and within the room there was; or nothing changed.
  ghost predicate Handled(r: Received, input: seq<Byte>, from: nat, target: string,
                          before: map<string, seq<Byte>>, after: map<string, seq<Byte>>) {
    match r
    case SavedOne(s) =>
      && Arrived(input, s, target) && IsUploadName(s.name)
      && |s.content| <= UploadLimit(Total(before - {s.name}))
      && after == before[s.name := s.content]
    case _ => after == before
  }

  // And the stream has been read that far: past the 0 that confirms it, or to
  // the end where one is missing. Anything else is a failure, if it goes on.
  ghost predicate Read(r: Received, input: seq<Byte>, o: Offer, target: string, at: nat, before: bool, failed: bool, goOn: bool) {
    match r
    case SavedOne(s) => Takes(s, o, target) && failed == before && Confirmed(input, o) && at == o.End() + 1
    case Unconfirmed => o.Offer? && failed == before && at == o.End() == |input|
    case Refused => goOn ==> failed
  }

  // When nothing fails, only the stream can be to blame.
  ghost predicate Earned(r: Received, input: seq<Byte>, o: Offer, target: string, files: map<string, seq<Byte>>, goOn: bool) {
    if Wanted(input, o, target, files) && o.End() == |input| then r.Unconfirmed? && goOn
    else if Wanted(input, o, target, files) && Confirmed(input, o) then r.SavedOne? && goOn
    else r.Refused?
  }

  predicate GoesTo(viewOnly: bool, path: string, toFolder: bool) {
    && !viewOnly && Resolve(path).Found? && Resolve(path).path.area == Imports && (toFolder ==> Resolve(path).path.name == "")
  }

  // A stream to be received into some files: what it offers from the start,
  // whether it is smooth, and whether nothing will fail.
  datatype Job = Job(input: seq<Byte>, target: string, files: map<string, seq<Byte>>, all: seq<Offer>, smooth: bool, easy: bool)

  // So far: what was saved, what of that was offered, and what is still to come.
  datatype Progress = Progress(saved: seq<Saved>, offers: seq<Offer>, rest: seq<Offer>, smooth: bool)

  // What was saved is in the files as it came, and nothing else has changed.
  ghost predicate Kept(job: Job, saved: seq<Saved>, files: map<string, seq<Byte>>) {
    && files == SaveAll(job.files, saved)
    && (forall s :: s in saved ==> IsUploadName(s.name) && Arrived(job.input, s, job.target))
    && Hidden(files) == Hidden(job.files) && (Total(job.files) <= MAX_IMPORTS ==> Total(files) <= MAX_IMPORTS)
  }

  // As long as nothing was refused, all that was offered is saved.
  predicate Offered(job: Job, p: Progress, failed: bool, from: nat) {
    failed
    || (job.all == p.offers + p.rest && AllTaken(job.input, p.saved, p.offers, job.target)
        && (EndsBare(job.input, p.offers) ==> from >= |job.input|))
  }

  // And it depends on the rest whether the stream is smooth.
  ghost predicate SoFar(job: Job, p: Progress, failed: bool) {
    job.easy ==> Hidden(job.files) == {} && (job.smooth <==> !failed && p.smooth)
  }

  ghost predicate Going(job: Job, p: Progress, files: map<string, seq<Byte>>, failed: bool, from: nat) {
    Kept(job, p.saved, files) && Offered(job, p, failed, from) && SoFar(job, p, failed)
  }

  // What is still to come.
  ghost predicate Ahead(job: Job, p: Progress, files: map<string, seq<Byte>>, from: nat) {
    from <= |job.input| && p.rest == Offers(job.input, from) && p.smooth == Smooth(job.input, from, job.target, files)
  }

  ghost function Onward(job: Job, saved: seq<Saved>, offers: seq<Offer>, files: map<string, seq<Byte>>, from: nat): (p: Progress)
    requires from <= |job.input|
    ensures p.saved == saved && p.offers == offers && Ahead(job, p, files, from)
  {
    Progress(saved, offers, Offers(job.input, from), Smooth(job.input, from, job.target, files))
  }

  lemma Gone(job: Job, p: Progress, files: map<string, seq<Byte>>, failed: bool, from: nat)
    requires Going(job, p, files, failed, from) && Ahead(job, p, files, from) && !HasLine(job.input, from)
    ensures !failed ==> AllTaken(job.input, p.saved, job.all, job.target)
    ensures job.easy ==> (job.smooth <==> !failed)
  {
    assert p.offers + [] == p.offers;
  }

  ghost function OfferOf(line: seq<Byte>, from: nat, at: nat): Offer {
    var parsed := FileLineOf(line);
    if parsed.FileLine? then Offer(parsed.name, parsed.size, from, at) else Nothing
  }

  // A line of no account.
  lemma Skipped(job: Job, p: Progress, files: map<string, seq<Byte>>, from: nat)
    requires Ahead(job, p, files, from) && HasLine(job.input, from) && LineEnd(job.input, from) > from
    requires IsSkipped(job.input, from)
    ensures Ahead(job, p, files, LineEnd(job.input, from) + 1)
  {
    SkipOffers(job.input, from);
    SkipSmooth(job.input, from, job.target, files);
  }

  // A line no file is announced in.
  lemma NotSmooth(job: Job, p: Progress, files: map<string, seq<Byte>>, from: nat)
    requires Ahead(job, p, files, from) && HasLine(job.input, from)
    requires LineEnd(job.input, from) == from || (!IsSkipped(job.input, from) && OfferAt(job.input, from).Nothing?)
    ensures !p.smooth
  {
  }

  lemma FailedGoes(job: Job, p: Progress, next: Progress, files: map<string, seq<Byte>>, failed: bool, from: nat, end: nat)
    requires Going(job, p, files, failed, from) && !p.smooth && next.saved == p.saved
    ensures Going(job, next, files, true, end) && (job.easy ==> !job.smooth)
  {
  }

  lemma NoFileIn(job: Job, p: Progress, files: map<string, seq<Byte>>, from: nat, line: seq<Byte>)
    requires Ahead(job, p, files, from) && HasLine(job.input, from) && line == job.input[from..LineEnd(job.input, from)]
    requires line == [] || (line[0] != LETTER_T && line[0] != LETTER_E && line[0] != LETTER_C)
    ensures !p.smooth
  {
    if line != [] {
      NoFileLine(line);
    }
    NotSmooth(job, p, files, from);
  }

  // What an announced file leaves to come.
  ghost predicate Leaves(job: Job, p: Progress, o: Offer, files: map<string, seq<Byte>>, rest: seq<Offer>, smooth: bool) {
    && o.Offer? && p.rest == [o] + (if Confirmed(job.input, o) then rest else [])
    && (p.smooth <==> Wanted(job.input, o, job.target, files) && (o.End() == |job.input| || (Confirmed(job.input, o) && smooth)))
  }

  lemma OfferLeaves(job: Job, p: Progress, o: Offer, files: map<string, seq<Byte>>, from: nat)
    requires Ahead(job, p, files, from) && IsOffer(job.input, o, from)
    ensures Confirmed(job.input, o) ==>
              Leaves(job, p, o, files, Offers(job.input, o.End() + 1),
                     Smooth(job.input, o.End() + 1, job.target, With(job.input, o, job.target, files)))
    ensures !Confirmed(job.input, o) ==> Leaves(job, p, o, files, [], true)
  {
    OfferOffers(job.input, from, o);
    OfferSmooth(job.input, from, o, job.target, files);
  }

  // The file announced is saved, refused, or the last.
  lemma FileTaken(job: Job, p: Progress, before: map<string, seq<Byte>>, files: map<string, seq<Byte>>, wasFailed: bool, failed: bool,
                  from: nat, o: Offer, end: nat, received: Received, goOn: bool) returns (next: Progress)
    requires Going(job, p, before, wasFailed, from) && Ahead(job, p, before, from) && from < |job.input| && end <= |job.input|
    requires IsOffer(job.input, o, from) && Read(received, job.input, o, job.target, end, wasFailed, failed, goOn)
    requires job.easy ==> Earned(received, job.input, o, job.target, before, goOn)
    requires Handled(received, job.input, from, job.target, before, files) && (wasFailed ==> failed)
    ensures Kept(job, next.saved, files) && Ahead(job, next, files, end)
    ensures goOn ==> Going(job, next, files, failed, end)
    ensures !goOn && job.easy ==> !job.smooth
  {
    match received {
      case SavedOne(taken) =>
        next := Onward(job, p.saved + [taken], p.offers + [o], files, end);
        SavedOnward(job, p, next, before, files, failed, from, o, taken);
      case Unconfirmed =>
        next := Onward(job, p.saved, p.offers + [o], files, end);
        LastOnward(job, p, next, files, failed, from, o);
      case Refused =>
        next := Onward(job, p.saved, p.offers, files, end);
        RefusedOnward(job, p, next, files, wasFailed, from, o, end, received, goOn);
    }
  }

  lemma SavedOnward(job: Job, p: Progress, next: Progress, before: map<string, seq<Byte>>, files: map<string, seq<Byte>>,
                    failed: bool, from: nat, o: Offer, taken: Saved)
    requires Going(job, p, before, failed, from) && Ahead(job, p, before, from) && from < |job.input| && IsOffer(job.input, o, from)
    requires Confirmed(job.input, o) && Takes(taken, o, job.target)
             && Handled(SavedOne(taken), job.input, from, job.target, before, files)
    requires job.easy ==> Wanted(job.input, o, job.target, before)
    requires next.saved == p.saved + [taken] && next.offers == p.offers + [o] && Ahead(job, next, files, o.End() + 1)
    ensures Going(job, next, files, failed, o.End() + 1)
  {
    OfferLeaves(job, p, o, before, from);
    TakenIs(job, before, files, from, o, taken);
    SavedGoes(job, p, next, before, files, failed, from, o, taken);
  }

  lemma LastOnward(job: Job, p: Progress, next: Progress, files: map<string, seq<Byte>>, failed: bool, from: nat, o: Offer)
    requires Going(job, p, files, failed, from) && Ahead(job, p, files, from) && from < |job.input| && IsOffer(job.input, o, from)
    requires o.End() == |job.input| && (job.easy ==> Wanted(job.input, o, job.target, files))
    requires next.saved == p.saved && next.offers == p.offers + [o] && Ahead(job, next, files, |job.input|)
    ensures Going(job, next, files, failed, |job.input|)
  {
    OfferLeaves(job, p, o, files, from);
    NothingLeft(job.input, job.target, files);
    LastGoes(job, p, next, files, failed, from, o);
  }

  lemma RefusedOnward(job: Job, p: Progress, next: Progress, files: map<string, seq<Byte>>, failed: bool, from: nat, o: Offer, end: nat,
                      received: Received, goOn: bool)
    requires Going(job, p, files, failed, from) && Ahead(job, p, files, from) && IsOffer(job.input, o, from)
             && next.saved == p.saved
    requires received.Refused? && (job.easy ==> Earned(received, job.input, o, job.target, files, goOn))
    ensures Going(job, next, files, true, end) && (job.easy ==> !job.smooth)
  {
    OfferLeaves(job, p, o, files, from);
    RefusedGoes(job, p, next, files, failed, from, o, end, received, goOn);
  }

  lemma RefusedGoes(job: Job, p: Progress, next: Progress, files: map<string, seq<Byte>>, failed: bool, from: nat, o: Offer, end: nat,
                    received: Received, goOn: bool)
    requires Going(job, p, files, failed, from) && next.saved == p.saved && received.Refused?
    requires o.Offer?
    requires p.smooth ==> Wanted(job.input, o, job.target, files) && (o.End() == |job.input| || Confirmed(job.input, o))
    requires job.easy ==> Earned(received, job.input, o, job.target, files, goOn)
    ensures Going(job, next, files, true, end) && (job.easy ==> !job.smooth)
  {
  }

  lemma TakenIs(job: Job, before: map<string, seq<Byte>>, files: map<string, seq<Byte>>, from: nat, o: Offer, taken: Saved)
    requires Handled(SavedOne(taken), job.input, from, job.target, before, files) && Takes(taken, o, job.target)
             && Confirmed(job.input, o)
    ensures files == With(job.input, o, job.target, before)
  {
  }

  // Its file's bytes and its 0 are kept.
  lemma SavedGoes(job: Job, p: Progress, next: Progress, before: map<string, seq<Byte>>, files: map<string, seq<Byte>>,
                  failed: bool, from: nat, o: Offer, taken: Saved)
    requires Going(job, p, before, failed, from) && from < |job.input| && next.saved == p.saved + [taken]
             && next.offers == p.offers + [o]
    requires Leaves(job, p, o, before, next.rest, next.smooth) && Confirmed(job.input, o)
    requires job.easy ==> Wanted(job.input, o, job.target, before)
    requires Handled(SavedOne(taken), job.input, from, job.target, before, files) && Takes(taken, o, job.target)
    ensures Going(job, next, files, failed, o.End() + 1)
  {
    KeptMore(job, p.saved, before, files, from, taken);
    if !failed {
      MoreTaken(job.input, p.saved, p.offers, job.target, o, taken);
      assert p.offers + ([o] + next.rest) == p.offers + [o] + next.rest;
    }
  }

  lemma KeptMore(job: Job, saved: seq<Saved>, before: map<string, seq<Byte>>, files: map<string, seq<Byte>>, from: nat, taken: Saved)
    requires Kept(job, saved, before) && Handled(SavedOne(taken), job.input, from, job.target, before, files)
    ensures Kept(job, saved + [taken], files)
  {
    SavingKeepsRoom(before, taken.name, taken.content);
    assert saved == (saved + [taken])[..|saved|];
  }

  lemma MoreTaken(input: seq<Byte>, saved: seq<Saved>, offers: seq<Offer>, target: string, o: Offer, taken: Saved)
    requires AllTaken(input, saved, offers, target) && !EndsBare(input, offers) && Takes(taken, o, target) && o.End() < |input|
    ensures AllTaken(input, saved + [taken], offers + [o], target) && !EndsBare(input, offers + [o])
  {
  }

  lemma LastGoes(job: Job, p: Progress, next: Progress, files: map<string, seq<Byte>>, failed: bool, from: nat, o: Offer)
    requires Going(job, p, files, failed, from) && from < |job.input| && next.saved == p.saved && next.offers == p.offers + [o]
    requires o.Offer? && o.End() == |job.input| && p.rest == [o] && next.rest == [] && next.smooth
    requires job.easy ==> p.smooth
    ensures Going(job, next, files, failed, |job.input|)
  {
    if !failed {
      LastTaken(job.input, p.saved, p.offers, job.target, o);
      assert p.offers + [o] == p.offers + [o] + [];
    }
  }

  lemma LastTaken(input: seq<Byte>, saved: seq<Saved>, offers: seq<Offer>, target: string, o: Offer)
    requires AllTaken(input, saved, offers, target) && !EndsBare(input, offers) && o.Offer? && o.End() == |input|
    ensures AllTaken(input, saved, offers + [o], target)
  {
  }

  function SaveAll(files: map<string, seq<Byte>>, saved: seq<Saved>): map<string, seq<Byte>> {
    if saved == [] then files
    else SaveAll(files, saved[..|saved| - 1])[saved[|saved| - 1].name := saved[|saved| - 1].content]
  }

  class Transfer {
    const channel: Channel
    const exports: FileSystem
    const imports: FileSystem
    const viewOnly: bool
    var failed: bool

    constructor (channel: Channel, exports: FileSystem, imports: FileSystem, viewOnly: bool)
      ensures this.channel == channel && this.exports == exports && this.imports == imports && this.viewOnly == viewOnly
      ensures !failed
    {
      this.channel, this.exports, this.imports, this.viewOnly := channel, exports, imports, viewOnly;
      failed := false;
    }

    method ReadLine() returns (ok: bool, line: seq<Byte>)
      requires channel.at <= |channel.input|
      modifies channel`at
      ensures old(channel.at) <= channel.at <= |channel.input|
      ensures ok <==> HasLine(channel.input, old(channel.at))
      ensures ok ==>
                channel.at == LineEnd(channel.input, old(channel.at)) + 1 && line == channel.input[old(channel.at)..channel.at - 1]
    {
      ghost var start := channel.at;
      line := [];
      var more, c := channel.Read(1);
      while more
        invariant more ==> start + |line| + 1 == channel.at <= |channel.input| && c == [channel.input[channel.at - 1]]
        invariant !more ==> start + |line| == channel.at == |channel.input|
        invariant |line| <= MAX_LINE && Unbroken(channel.input, start, line)
        decreases more, |channel.input| - channel.at
      {
        if c[0] == NEWLINE {
          UnbrokenTo(channel.input, start, line);
          return true, line;
        }
        UnbrokenMore(channel.input, start, line, c[0]);
        if |line| >= MAX_LINE {
          UnbrokenTo(channel.input, start, line + [c[0]]);
          return false, line;
        }
        line := line + [c[0]];
        more, c := channel.Read(1);
      }
      UnbrokenTo(channel.input, start, line);
      ok := false;
    }

    method ReadAck() returns (ok: bool)
      requires channel.at <= |channel.input|
      modifies channel`at, `failed
      ensures old(channel.at) <= channel.at <= |channel.input| && (old(failed) ==> failed)
      ensures ok <==> old(channel.at) < |channel.input| && channel.input[old(channel.at)] == 0
      ensures ok ==> channel.at == old(channel.at) + 1
      ensures failed == if old(channel.at) < |channel.input| && channel.input[old(channel.at)] != 0 then true else old(failed)
    {
      var got, reply := channel.Read(1);
      if !got {
        return false;
      }
      if reply[0] == 0 {
        return true;
      }
      var _, message := ReadLine();
      failed := true;
      ok := false;
    }

    method Ack() returns (ok: bool)
      modifies channel`output
      ensures channel.alive ==> ok
    {
      ok := channel.Write([0]);
    }

    // An error the client reports; with `fatal` it ends the transfer.
    method Warn(fatal: bool)
      modifies channel`output, `failed
      ensures failed
    {
      failed := true;
      var message: seq<Byte> := *;
      var sent := channel.Write([if fatal then 2 else 1] + message + [NEWLINE]);
    }

    // The bytes of one file into its temporary one.
    method ReceiveData(temp: string, size: nat) returns (ok: bool, written: bool)
      requires channel.at <= |channel.input| && temp in imports.files && imports.files[temp] == []
      modifies channel`at, imports`files, imports`answers
      ensures old(channel.at) <= channel.at <= |channel.input|
      ensures ok <==> old(channel.at) + size <= |channel.input|
      ensures ok ==> channel.at == old(channel.at) + size
      ensures SameBut(old(imports.files), imports.files, temp)
      ensures ok && written ==> imports.files[temp] == channel.input[old(channel.at)..channel.at]
      ensures old(imports.answers) == [] ==> imports.answers == [] && (ok ==> written)
    {
      ghost var start := channel.at;
      var left: nat := size;
      written := true;
      while left > 0
        invariant channel.at <= |channel.input| && start <= channel.at && channel.at + left == start + size
        invariant SameBut(old(imports.files), imports.files, temp)
        invariant written ==> imports.files[temp] == channel.input[start..channel.at]
        invariant old(imports.answers) == [] ==> imports.answers == [] && written
      {
        var chunk := if left < CHUNK then left else CHUNK;
        ghost var from := channel.at;
        var got, data := channel.Read(chunk);
        if !got {
          return false, false;
        }
        if written {
          written := imports.Append(temp, data);
          assert channel.input[start..from] + data == channel.input[start..channel.at];
        }
        left := left - chunk;
      }
      var closed := imports.Works();
      written := written && closed;
      ok := true;
    }

    // Nothing will fail.
    ghost predicate Easy()
      reads channel, imports
    {
      channel.alive && imports.answers == [] && Hidden(imports.files) == {}
    }

    // One file, as announced in a line that starts at `from`: saved whole, or
    // not at all.
    method ReceiveFile(line: seq<Byte>, target: string, ghost from: nat) returns (goOn: bool, ghost received: Received)
      requires from < channel.at <= |channel.input| && channel.input[channel.at - 1] == NEWLINE
      requires line == channel.input[from..channel.at - 1] && NEWLINE !in line
      modifies channel`at, channel`output, imports`files, imports`answers, `failed
      ensures old(channel.at) <= channel.at <= |channel.input| && (old(failed) ==> failed)
      ensures Handled(received, channel.input, from, target, old(imports.files), imports.files)
      ensures Read(received, channel.input, OfferOf(line, from, old(channel.at)), target, channel.at, old(failed), failed, goOn)
      ensures OfferOf(line, from, old(channel.at)).Nothing? ==> received.Refused? && !goOn
      ensures old(Easy()) ==>
                && imports.answers == []
                && Earned(received, channel.input, OfferOf(line, from, old(channel.at)), target, old(imports.files), goOn)
    {
      received := Refused;
      var parsed := ParseScpFileLine(line);
      ReadTheSame(line, parsed, FileLineOf(line));
      if !parsed.FileLine? {
        Warn(true);
        return false, Refused;
      }
      var name := Renamed(parsed.name, target);
      var allowed := IsAllowedImportName(name);
      if !allowed {
        Warn(false);
        return true, Refused;
      }
      var used := imports.BytesUsed(name);
      if parsed.size > UploadLimit(used) {
        Warn(false);
        return true, Refused;
      }
      goOn, received := Accept(name, parsed.size, target, from, parsed.name);
    }

    method Accept(name: string, size: nat, ghost target: string, ghost from: nat, ghost announced: string)
      returns (goOn: bool, ghost received: Received)
      requires channel.at <= |channel.input| && Announces(channel.input, from, channel.at, size, announced)
      requires name == Renamed(announced, target) && IsUploadName(name) && size <= UploadLimit(Total(imports.files - {name}))
      modifies channel`at, channel`output, imports`files, imports`answers, `failed
      ensures old(channel.at) <= channel.at <= |channel.input| && (old(failed) ==> failed)
      ensures Handled(received, channel.input, from, target, old(imports.files), imports.files)
      ensures Read(received, channel.input, Offer(announced, size, from, old(channel.at)), target, channel.at, old(failed), failed, goOn)
      ensures old(Easy()) ==>
                && imports.answers == []
                && Earned(received, channel.input, Offer(announced, size, from, old(channel.at)), target, old(imports.files), goOn)
    {
      var there := imports.Works();
      if !there {
        Warn(false);
        return true, Refused;
      }
      var suffix: string := *;
      var temp := "." + name + ".tmp-" + suffix;
      assert temp[0] == '.' && (temp in imports.files ==> temp in Hidden(imports.files));
      var created := imports.Create(temp);
      if !created {
        Warn(false);
        return true, Refused;
      }
      var acked := Ack();
      if !acked {
        imports.Remove(temp);
        assert imports.files == old(imports.files);
        return false, Refused;
      }
      goOn, received := Store(temp, name, size, target, from, announced, old(imports.files));
    }

    // Its bytes and the confirmation, and then its name.
    method Store(temp: string, name: string, size: nat, ghost target: string, ghost from: nat, ghost announced: string,
                 ghost before: map<string, seq<Byte>>)
      returns (goOn: bool, ghost received: Received)
      requires channel.at <= |channel.input| && Announces(channel.input, from, channel.at, size, announced)
      requires name == Renamed(announced, target) && IsUploadName(name) && size <= UploadLimit(Total(before - {name}))
      requires temp !in before && imports.files == before[temp := []] && name != temp
      modifies channel`at, channel`output, imports`files, imports`answers, `failed
      ensures old(channel.at) <= channel.at <= |channel.input| && (old(failed) ==> failed)
      ensures Handled(received, channel.input, from, target, before, imports.files)
      ensures Read(received, channel.input, Offer(announced, size, from, old(channel.at)), target, channel.at, old(failed), failed, goOn)
      ensures channel.alive && old(imports.answers) == [] ==>
                && imports.answers == []
                && Earned(received, channel.input, Offer(announced, size, from, old(channel.at)), target, before, goOn)
    {
      ghost var start := channel.at;
      var got, written := ReceiveData(temp, size);
      TempGone(before, temp, imports.files);
      if !got {
        imports.Remove(temp);
        return false, Refused;
      }
      ghost var end := channel.at;
      var confirmed := ReadAck();
      if !confirmed {
        imports.Remove(temp);
        return true, if end < |channel.input| then Refused else Unconfirmed;
      }
      if !written {
        imports.Remove(temp);
        Warn(false);
        return true, Refused;
      }
      ghost var content := imports.files[temp];
      var replaced := imports.Replace(name, temp);
      if !replaced {
        Warn(false);
        return true, Refused;
      }
      received := SavedOne(Saved(name, content, from, start));
      assert Arrived(channel.input, received.s, target);
      goOn := Ack();
    }

    // Files as they come, until the stream ends. Each is saved whole and as it
    // came, within the room there was, and nothing else in /imports changes.
    // The exit status is 0 only if each file offered was saved, but for a last
    // one that was never confirmed; and if nothing fails, it is 0 exactly if the
    // stream is smooth.
    method Receive(path: string, toFolder: bool) returns (code: int, ghost saved: seq<Saved>)
      requires channel.at <= |channel.input|
      modifies channel`at, channel`output, imports`files, imports`answers, `failed
      ensures imports.files == SaveAll(old(imports.files), saved)
      ensures forall s :: s in saved ==>
                IsUploadName(s.name) && Resolve(path).Found? && Arrived(channel.input, s, Resolve(path).path.name)
      ensures saved != [] || code == 0 ==> GoesTo(viewOnly, path, toFolder)
      ensures Hidden(imports.files) == old(Hidden(imports.files))
      ensures old(Total(imports.files)) <= MAX_IMPORTS ==> Total(imports.files) <= MAX_IMPORTS
      ensures code == 0 ==> AllTaken(channel.input, saved, Offers(channel.input, old(channel.at)), Resolve(path).path.name)
      ensures old(Easy()) && !old(failed) && GoesTo(viewOnly, path, toFolder) ==>
                (code == 0 <==> Smooth(channel.input, old(channel.at), Resolve(path).path.name, old(imports.files)))
    {
      saved := [];
      code := 1;
      var target := ResolveSftpPath(path);
      if !target.Found? || target.path.area != Imports || viewOnly {
        Warn(true);
        return;
      }
      if toFolder && target.path.name != "" {
        Warn(true);
        return;
      }
      var acked := Ack();
      if !acked {
        return;
      }
      code, saved := ReceiveFiles(target.path.name);
    }

    method ReceiveFiles(target: string) returns (code: int, ghost saved: seq<Saved>)
      requires channel.at <= |channel.input|
      modifies channel`at, channel`output, imports`files, imports`answers, `failed
      ensures imports.files == SaveAll(old(imports.files), saved)
      ensures forall s :: s in saved ==> IsUploadName(s.name) && Arrived(channel.input, s, target)
      ensures Hidden(imports.files) == old(Hidden(imports.files))
      ensures old(Total(imports.files)) <= MAX_IMPORTS ==> Total(imports.files) <= MAX_IMPORTS
      ensures code == 0 || code == 1
      ensures code == 0 ==> AllTaken(channel.input, saved, Offers(channel.input, old(channel.at)), target)
      ensures old(Easy()) && !old(failed) ==>
                (code == 0 <==> Smooth(channel.input, old(channel.at), target, old(imports.files)))
    {
      saved, code := [], 1;
      ghost var job := Job(channel.input, target, imports.files, Offers(channel.input, channel.at),
                           Smooth(channel.input, channel.at, target, imports.files), Easy() && !failed);
      ghost var p := Onward(job, [], [], imports.files, channel.at);
      ghost var from: nat := channel.at;
      var more, line := ReadLine();
      while more
        invariant from <= channel.at <= |channel.input| && (job.easy ==> channel.alive && imports.answers == [])
        invariant more <==> HasLine(channel.input, from)
        invariant more ==> channel.at == LineEnd(channel.input, from) + 1 && line == channel.input[from..channel.at - 1]
        invariant Going(job, p, imports.files, failed, from) && Ahead(job, p, imports.files, from)
        decreases more, |channel.input| - channel.at
      {
        var goOn;
        goOn, p := TakeLine(line, target, from, job, p);
        if !goOn {
          return 1, p.saved;
        }
        from := channel.at;
        more, line := ReadLine();
      }
      Gone(job, p, imports.files, failed, from);
      saved := p.saved;
      code := if failed then 1 else 0;
    }

    // One line, and the file after it if it announces one.
    method TakeLine(line: seq<Byte>, target: string, ghost from: nat, ghost job: Job, ghost p: Progress)
      returns (goOn: bool, ghost next: Progress)
      requires from <= channel.at <= |channel.input| && HasLine(channel.input, from) && job.input == channel.input
               && job.target == target
      requires channel.at == LineEnd(channel.input, from) + 1 && line == channel.input[from..channel.at - 1]
      requires Going(job, p, imports.files, failed, from) && Ahead(job, p, imports.files, from)
      requires job.easy ==> channel.alive && imports.answers == []
      modifies channel`at, channel`output, imports`files, imports`answers, `failed
      ensures old(channel.at) <= channel.at <= |channel.input| && (job.easy ==> imports.answers == [])
      ensures Kept(job, next.saved, imports.files) && Ahead(job, next, imports.files, channel.at)
      ensures goOn ==> Going(job, next, imports.files, failed, channel.at)
      ensures !goOn && job.easy ==> !job.smooth
    {
      if line != [] && (line[0] == LETTER_T || line[0] == LETTER_E) {
        next := p;
        Skipped(job, p, imports.files, from);
        goOn := Ack();
      } else if line != [] && line[0] == LETTER_C {
        goOn, next := TakeFile(line, target, from, job, p);
      } else {
        next := Onward(job, p.saved, p.offers, imports.files, channel.at);
        NoFileIn(job, p, imports.files, from, line);
        FailedGoes(job, p, next, imports.files, failed, from, channel.at);
        goOn := TakeOther(line);
      }
    }

    // A line that announces no file.
    method TakeOther(line: seq<Byte>) returns (goOn: bool)
      requires line == [] || (line[0] != LETTER_T && line[0] != LETTER_E && line[0] != LETTER_C)
      modifies channel`output, `failed
      ensures goOn ==> failed
    {
      if line == [] {
        Warn(true);
        return false;
      }
      var kind := line[0];
      if kind == LETTER_D {
        Warn(false);
        goOn := true;
      } else if kind == 1 {
        failed := true;
        goOn := true;
      } else if kind == 2 {
        goOn := false;
      } else {
        Warn(true);
        goOn := false;
      }
    }

    method TakeFile(line: seq<Byte>, target: string, ghost from: nat, ghost job: Job, ghost p: Progress)
      returns (goOn: bool, ghost next: Progress)
      requires from <= channel.at <= |channel.input| && HasLine(channel.input, from) && job.input == channel.input
               && job.target == target
      requires channel.at == LineEnd(channel.input, from) + 1 && line == channel.input[from..channel.at - 1]
      requires line != [] && line[0] == LETTER_C
      requires Going(job, p, imports.files, failed, from) && Ahead(job, p, imports.files, from)
      requires job.easy ==> channel.alive && imports.answers == []
      modifies channel`at, channel`output, imports`files, imports`answers, `failed
      ensures old(channel.at) <= channel.at <= |channel.input| && (job.easy ==> imports.answers == [])
      ensures Kept(job, next.saved, imports.files) && Ahead(job, next, imports.files, channel.at)
      ensures goOn ==> Going(job, next, imports.files, failed, channel.at)
      ensures !goOn && job.easy ==> !job.smooth
    {
      ghost var before, wasFailed, o := imports.files, failed, OfferAt(channel.input, from);
      ghost var received;
      LineEndMeans(channel.input, from);
      goOn, received := ReceiveFile(line, target, from);
      if o.Nothing? {
        NotSmooth(job, p, before, from);
        next := Onward(job, p.saved, p.offers, imports.files, channel.at);
      } else {
        next := FileTaken(job, p, before, imports.files, wasFailed, failed, from, o, channel.at, received, goOn);
      }
    }

    method SendData(content: seq<Byte>, files: FileSystem) returns (ok: bool)
      modifies channel`output, files`answers
      ensures ok ==> channel.output == old(channel.output) + content
      ensures channel.alive && old(files.answers) == [] ==> ok
    {
      var left: nat := |content|;
      while left > 0
        invariant left <= |content| && channel.output == old(channel.output) + content[..|content| - left]
        invariant old(files.answers) == [] ==> files.answers == []
      {
        var chunk := if left < CHUNK then left else CHUNK;
        var data := content[|content| - left..|content| - left + chunk];
        var read := files.Works();
        if !read {
          return false;
        }
        ok := channel.Write(data);
        if !ok {
          return false;
        }
        assert content[..|content| - left] + data == content[..|content| - left + chunk];
        left := left - chunk;
      }
      assert content[..|content|] == content;
      ok := true;
    }

    // Where a file to be sent is.
    function FolderOf(path: Path): FileSystem {
      if path.area == Exports then exports else imports
    }

    predicate Sendable(path: string)
      reads exports, imports
    {
      && Resolve(path).Found? && Resolve(path).path.name != "" && IsBytes(Resolve(path).path.name)
      && Resolve(path).path.name in FolderOf(Resolve(path).path).files
    }

    // A file of the user's, to the client: its line, its bytes, and a 0. If
    // nothing fails, the exit status is 0 exactly if there is such a file and the
    // client says yes to each of them.
    method Send(path: string, preserve: bool, times: seq<Byte>) returns (code: int)
      requires channel.at <= |channel.input|
      modifies channel`at, channel`output, exports`answers, imports`answers, `failed
      ensures code == 0 ==>
                && Sendable(path)
                && var p := Resolve(path).path;
                channel.output == old(channel.output) + (if preserve then times else []) + Sent(p.name, FolderOf(p).files[p.name])
      ensures channel.alive && old(exports.answers) == [] && old(imports.answers) == [] ==>
                (code == 0 <==> Sendable(path) && Acks(channel.input, old(channel.at), if preserve then 4 else 3))
    {
      code := 1;
      var ready := ReadAck();
      if !ready {
        return;
      }
      var source := ResolveSftpPath(path);
      if !source.Found? || source.path.area == Root || source.path.name == "" {
        Warn(false);
        return;
      }
      var p := source.path;
      var files := FolderOf(p);
      if p.name !in files.files || !IsBytes(p.name) {
        Warn(false);
        return;
      }
      code := SendFile(p.name, files, preserve, times);
    }

    method SendFile(name: string, files: FileSystem, preserve: bool, times: seq<Byte>) returns (code: int)
      requires channel.at <= |channel.input| && IsBytes(name) && name in files.files
      modifies channel`at, channel`output, files`answers, `failed
      ensures code == 0 || code == 1
      ensures code == 0 ==>
                channel.output == old(channel.output) + (if preserve then times else []) + Sent(name, files.files[name])
      ensures channel.alive && old(files.answers) == [] ==>
                (code == 0 <==> Acks(channel.input, old(channel.at), if preserve then 3 else 2))
    {
      code := 1;
      if preserve {
        var ok := channel.Write(times);
        if !ok {
          return;
        }
        ok := ReadAck();
        if !ok {
          return;
        }
      }
      assert channel.output == old(channel.output) + if preserve then times else [];
      code := SendContent(name, files);
    }

    method SendContent(name: string, files: FileSystem) returns (code: int)
      requires channel.at <= |channel.input| && IsBytes(name) && name in files.files
      modifies channel`at, channel`output, files`answers, `failed
      ensures code == 0 || code == 1
      ensures code == 0 ==> channel.output == old(channel.output) + Sent(name, files.files[name])
      ensures channel.alive && old(files.answers) == [] ==> (code == 0 <==> Acks(channel.input, old(channel.at), 2))
    {
      code := 1;
      var content := files.files[name];
      var ok := channel.Write(Header(name, |content|));
      if !ok {
        return;
      }
      ok := ReadAck();
      if !ok {
        return;
      }
      ok := SendData(content, files);
      if !ok {
        return;
      }
      ok := channel.Write([0]);
      if !ok {
        return;
      }
      assert channel.output == old(channel.output) + Sent(name, content);
      ok := ReadAck();
      if ok {
        code := 0;
      }
    }
  }

  // That many yeses come next.
  predicate Acks(input: seq<Byte>, at: nat, count: nat) {
    at + count <= |input| && forall k :: at <= k < at + count ==> input[k] == 0
  }

  lemma TempGone(before: map<string, seq<Byte>>, temp: string, files: map<string, seq<Byte>>)
    requires temp !in before && SameBut(before[temp := []], files, temp)
    ensures files - {temp} == before
  {
  }

  // A file within the limit leaves /imports within its own.
  lemma SavingKeepsRoom(files: map<string, seq<Byte>>, name: string, content: seq<Byte>)
    requires IsUploadName(name) && |content| <= UploadLimit(Total(files - {name}))
    ensures Total(files) <= MAX_IMPORTS ==> Total(files[name := content]) <= MAX_IMPORTS
    ensures Hidden(files[name := content]) == Hidden(files)
  {
    var after := files[name := content];
    TotalWithout(after, name);
    assert after - {name} == files - {name};
    if name in files {
      TotalWithout(files, name);
    } else {
      assert files - {name} == files;
    }
  }

  // ---- A file that goes missing ----

  // A line for a file of one byte, and the byte.
  const BARE: seq<Byte> := Header("a.qlnet", 1) + [0x78]

  lemma BareIsOffer() returns (o: Offer)
    ensures IsOffer(BARE, o, 0) && o.size == 1 && o.name == "a.qlnet" && o.End() == |BARE|
  {
    var header := Header("a.qlnet", 1);
    var line := HeaderLine("a.qlnet", 1);
    var end := |header| - 1;
    assert BARE[0..end] == line && BARE[end] == NEWLINE;
    LineEndIs(BARE, 0, end);
    ReadTheSame(line, FileLine(1, "a.qlnet"), FileLineOf(line));
    o := OfferAt(BARE, 0);
  }

  lemma BareIsSmooth()
    ensures Smooth(BARE, 0, "", map[]) && |Offers(BARE, 0)| == 1 && EndsBare(BARE, Offers(BARE, 0))
  {
    var o := BareIsOffer();
    OfferOffers(BARE, 0, o);
    OfferSmooth(BARE, 0, o, "", map[]);
  }

  // Nothing fails, the exit status is 0, and the one file sent is not there.
  method SendBare(path: string) returns (code: int, t: Transfer)
    requires GoesTo(false, path, false) && Resolve(path).path.name == ""
    ensures code == 0 && t.imports.files == map[]
  {
    var channel := new Channel(BARE, true);
    var files := new FileSystem(map[], []);
    t := new Transfer(channel, files, files, false);
    code := ReceiveBare(t, path);
  }

  method ReceiveBare(t: Transfer, path: string) returns (code: int)
    requires GoesTo(t.viewOnly, path, false) && Resolve(path).path.name == "" && t.Easy() && !t.failed
    requires t.channel.input == BARE && t.channel.at == 0 && t.imports.files == map[]
    modifies t, t.channel, t.imports
    ensures code == 0 && t.imports.files == map[]
  {
    BareIsSmooth();
    ghost var saved;
    code, saved := t.Receive(path, false);
    assert saved == [];
  }
}
