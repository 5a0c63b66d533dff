// The two ends as the programs they are: nested loops that read, decide and
// send. Each method is proved to take the machine of `ZmodemMachine` from
// where it stood to where it stands, whatever its reads give.
module ZmodemPrograms {
  import opened Bytes
  import opened ZmodemFileInfo
  import opened ZmodemMachine

  // ---- Playing a machine to its end ----

  // The next event for a reader awaiting a header, or data. A channel with
  // nothing more to give is closed.
  function NextEvent(input: seq<Event>, header: bool): Event {
    if input == [] || (header && (input[0].Whole? || input[0].TooBig?)) || (!header && input[0].Heard?) then Closed
    else input[0]
  }

  function Later<T>(input: seq<T>): seq<T> {
    if input == [] then [] else input[1..]
  }

  datatype Played = Played(receiver: Receiver, replies: seq<Reply>, rest: seq<Event>)

  function Rank(mode: Mode): nat {
    match mode
    case Finished => 0
    case Failed => 0
    case Attention => 2
    case Information => 2
    case Again => 2
    case _ => 1
  }

  // All the receiver does from `r` on, having sent `replies`.
  function Play(c: Config, r: Receiver, replies: seq<Reply>, input: seq<Event>): Played
    decreases |input|, Rank(r.mode)
  {
    if !r.Running() then Played(r, replies, input)
    else
      var reaction := Hear(c, r, NextEvent(input, r.AwaitsHeader()));
      Play(c, reaction.receiver, replies + reaction.replies, Later(input))
  }

  // One reaction taken, in whatever form it took.
  lemma PlayStep(c: Config, r: Receiver, replies: seq<Reply>, input: seq<Event>,
                 next: Receiver, said: seq<Reply>, after: seq<Reply>)
    requires r.Running() && Hear(c, r, NextEvent(input, r.AwaitsHeader())) == Reaction(next, said)
    requires after == replies + said
    ensures Play(c, r, replies, input) == Play(c, next, after, Later(input))
  {
  }

  class ReceiverProgram {
    const c: Config
    var input: seq<Event>
    var replies: seq<Reply>
    var received: seq<File>
    var name: seq<Byte>
    var mtime: nat
    var data: seq<Byte>
    var asks: nat
    var resolved: nat

    constructor (c: Config, input: seq<Event>)
      ensures this.c == c && this.input == input && replies == [] && Now(Between) == NewReceiver()
    {
      this.c := c;
      this.input := input;
      replies, received, name, mtime, data, asks, resolved := [], [], [], 0, [], 0, 0;
    }

    ghost function Now(mode: Mode): Receiver
      reads this
    {
      Receiver(mode, name, mtime, data, received, asks, resolved)
    }

    ghost function Outcome(mode: Mode): Played
      reads this
    {
      Play(c, Now(mode), replies, input)
    }

    method Read(header: bool) returns (e: Event)
      modifies `input
      ensures e == NextEvent(old(input), header) && input == Later(old(input))
    {
      e := Closed;
      if input != [] {
        if header && !input[0].Whole? && !input[0].TooBig? {
          e := input[0];
        } else if !header && !input[0].Heard? {
          e := input[0];
        }
        input := input[1..];
      }
    }

    // Sends a header; `stage` is for the record alone.
    method Say(kind: Kind, position: nat, stage: nat)
      modifies `replies
      ensures replies == old(replies) + [Reply(kind, position % TWO_32, stage, position)]
    {
      var reply := Reply(kind, position % TWO_32, stage, position);
      replies := replies + [reply];
    }

    method Run() returns (ok: bool)
      requires Now(Between) == NewReceiver() && replies == []
      modifies this
      ensures Outcome(if ok then Finished else Failed) == Play(c, NewReceiver(), [NewReceiver().Ready()], old(input))
    {
      Say(ZRINIT, 0, 2 * resolved);
      assert replies == [NewReceiver().Ready()];
      while true
        invariant Outcome(Between) == Play(c, NewReceiver(), [NewReceiver().Ready()], old(input))
        decreases |input|
      {
        var going := TakeHeader();
        if going.Stop? {
          return going.ok;
        }
      }
    }

    // The next header between files, or what came instead.
    method TakeHeader() returns (going: Going)
      modifies this
      ensures Outcome(going.At(Between)) == old(Outcome(Between))
      ensures going.GoOn? ==> |input| < |old(input)|
    {
      ghost var r, said, coming := Now(Between), replies, input;
      var e := Read(true);
      ghost var reaction := HearBetween(r, e);
      PlayStep(c, r, said, coming, reaction.receiver, reaction.replies, said + reaction.replies);
      if e.Heard? {
        going := Answer(e.kind);
      } else {
        going := Missed(e);
      }
    }

    // What anything but a header leads to.
    method Missed(e: Event) returns (going: Going)
      requires !e.Heard?
      modifies `asks, `replies
      ensures
        var reaction := HearBetween(old(Now(Between)), e);
        Now(going.At(Between)) == reaction.receiver && replies == old(replies) + reaction.replies
    {
      going := GoOn;
      match e {
        case Bad(late) =>
          if late {
            going := Stop(false);
          } else {
            Say(ZNAK, 0, 2 * resolved);
          }
        case Waited(late) =>
          if late {
            going := Stop(false);
          } else {
            AskAgain();
          }
        case _ =>
          going := Stop(false);
      }
    }

    // Every third time nothing comes, the sender is asked again.
    method AskAgain()
      modifies `asks, `replies
      ensures asks == old(asks) + 1
      ensures replies == old(replies) + if asks % 3 == 0 then [Reply(ZRINIT, 0, 2 * resolved, 0)] else []
    {
      asks := asks + 1;
      if asks % 3 == 0 {
        Say(ZRINIT, 0, 2 * resolved);
      }
    }

    // What a header between files leads to.
    method Answer(kind: Kind) returns (going: Going)
      modifies this
      ensures
        var r := old(Now(Between));
        var reaction := HearBetween(r, Heard(kind, 0));
        Outcome(going.At(Between)) == Play(c, reaction.receiver, old(replies) + reaction.replies, old(input))
      ensures |input| <= |old(input)|
    {
      going := GoOn;
      assert old(replies) + [] == old(replies);
      if kind == ZSINIT {
        TakeAttention();
      } else if kind == ZFILE {
        var ok := ReceiveFile();
        if !ok {
          going := Stop(false);
        }
      } else {
        going := AnswerAtOnce(kind);
      }
    }

    // Those with nothing to read after them.
    method AnswerAtOnce(kind: Kind) returns (going: Going)
      requires kind != ZSINIT && kind != ZFILE
      modifies `replies
      ensures
        var reaction := HearBetween(old(Now(Between)), Heard(kind, 0));
        Now(going.At(Between)) == reaction.receiver && replies == old(replies) + reaction.replies
    {
      going := GoOn;
      if kind == ZRQINIT {
        Say(ZRINIT, 0, 2 * resolved);
      } else if kind == ZFIN {
        Say(ZFIN, 0, 2 * resolved);
        going := Stop(true);
      } else if kind == ZCAN || kind == ZABORT {
        going := Stop(false);
      }
    }

    // The attention string, of no use here, is read and acknowledged.
    method TakeAttention()
      modifies `input, `replies
      ensures Outcome(Between) == old(Outcome(Attention)) && |input| <= |old(input)|
    {
      ghost var r, said, coming := Now(Attention), replies, input;
      var ignored := Read(false);
      Say(ZACK, 1, 2 * resolved);
      PlayStep(c, r, said, coming, Now(Between), [r.Say(ZACK, 1)], replies);
    }

    method ReceiveFile() returns (ok: bool)
      modifies this
      ensures Outcome(if ok then Between else Failed) == old(Outcome(Information))
      ensures |input| <= |old(input)|
    {
      ghost var r, said, coming := Now(Information), replies, input;
      var taken := TakeOffer();
      ghost var reaction := HearInformation(c, r, NextEvent(coming, false));
      PlayStep(c, r, said, coming, reaction.receiver, reaction.replies, replies);
      if !taken {
        return true;
      }
      ok := ReceiveContents();
    }

    // Whether the file offered is taken.
    method TakeOffer() returns (taken: bool)
      modifies this
      ensures
        var reaction := HearInformation(c, old(Now(Information)), NextEvent(old(input), false));
        && Now(if taken then InFile else Between) == reaction.receiver
        && replies == old(replies) + reaction.replies && input == Later(old(input))
    {
      var got := Read(false);
      if !got.Whole? {
        Say(ZNAK, 0, 2 * resolved);
        return false;
      }
      var parsed := c.parse(got.content);
      if parsed.Unparsed? || parsed.size > c.limit {
        Say(ZSKIP, 0, 2 * resolved + 1);
        resolved := resolved + 1;
        return false;
      }
      name, mtime, data := parsed.name, parsed.mtime, [];
      Say(ZRPOS, 0, 2 * resolved + 1);
      taken := true;
    }

    // The headers inside a file, until it ends.
    method ReceiveContents() returns (ok: bool)
      modifies this
      ensures Outcome(if ok then Between else Failed) == old(Outcome(InFile))
      ensures |input| <= |old(input)|
    {
      while true
        invariant Outcome(InFile) == old(Outcome(InFile)) && |input| <= |old(input)|
        decreases |input|
      {
        ghost var r, said, coming := Now(InFile), replies, input;
        var e := Read(true);
        match e {
          case Bad(_) =>
            Say(ZRPOS, |data|, 2 * resolved + 1);
            PlayStep(c, r, said, coming, Now(InFile), [r.Say(ZRPOS, |r.data|)], replies);
          case Heard(kind, pos) =>
            var going := AnswerInFile(kind, pos);
            if going.Stop? {
              return going.ok;
            }
          case _ =>
            PlayStep(c, r, said, coming, Now(Failed), [], replies);
            return false;
        }
      }
    }

    // What a header inside a file leads to; stopping well is stopping because
    // the file has ended.
    method AnswerInFile(kind: Kind, pos: nat) returns (going: Going)
      modifies this
      ensures
        var reaction := HearInFile(old(Now(InFile)), Heard(kind, pos));
        Outcome(match going case GoOn => InFile case Stop(ok) => if ok then Between else Failed)
        == Play(c, reaction.receiver, old(replies) + reaction.replies, old(input))
      ensures |input| <= |old(input)|
    {
      going := GoOn;
      ghost var r := Now(InFile);
      ghost var reaction := HearInFile(r, Heard(kind, pos));
      if kind == ZDATA {
        var ok := AnswerData(pos);
        going := if ok then GoOn else Stop(false);
      } else if kind == ZEOF && pos == |data| {
        assert reaction == Reaction(Pushed(r), [Pushed(r).Ready()]);
        Push();
        going := Stop(true);
      } else if kind == ZEOF {
        assert reaction == Reaction(r, [r.Say(ZRPOS, |r.data|)]);
        Say(ZRPOS, |data|, 2 * resolved + 1);
      } else if kind == ZFILE {
        assert reaction == Reaction(r.(mode := Again), []) && old(replies) + [] == replies;
        AnswerAgain();
      } else {
        assert reaction == Reaction(if kind == ZCAN || kind == ZABORT then r.(mode := Failed) else r, []);
        assert old(replies) + [] == replies;
        going := if kind == ZCAN || kind == ZABORT then Stop(false) else GoOn;
      }
    }

    // The offer again: its information is read and not looked at.
    method AnswerAgain()
      modifies `input, `replies
      ensures Outcome(InFile) == old(Outcome(Again)) && |input| <= |old(input)|
    {
      ghost var r, said, coming := Now(Again), replies, input;
      var ignored := Read(false);
      Say(ZRPOS, |data|, 2 * resolved + 1);
      PlayStep(c, r, said, coming, Now(InFile), [r.Say(ZRPOS, |r.data|)], replies);
    }

    method AnswerData(pos: nat) returns (ok: bool)
      modifies this
      ensures
        var reaction := HearInFile(old(Now(InFile)), Heard(ZDATA, pos));
        Outcome(if ok then InFile else Failed) == Play(c, reaction.receiver, old(replies) + reaction.replies, old(input))
      ensures |input| <= |old(input)|
    {
      if pos != |data| {
        Say(ZRPOS, |data|, 2 * resolved + 1);
        return true;
      }
      assert old(replies) + [] == old(replies);
      ok := ReceiveData();
    }

    // The file at hand is whole.
    method Push()
      modifies `received, `resolved, `replies
      ensures Now(Between) == Pushed(old(Now(InFile))) && replies == old(replies) + [Now(Between).Ready()]
    {
      received := received + [File(name, data, mtime)];
      resolved := resolved + 1;
      Say(ZRINIT, 0, 2 * resolved);
    }

    // A subpacket's bytes added, with an answer if one is wanted.
    method TakeBlock(content: seq<Byte>, end: End) returns (last: bool)
      modifies `data, `replies
      ensures
        var reaction := HearFileData(old(Now(FileData)), Whole(content, end));
        && Now(if last then InFile else FileData) == reaction.receiver
        && replies == old(replies) + reaction.replies
    {
      data := data + content;
      if end == Q || end == W {
        Say(ZACK, |data|, 2 * resolved + 1);
      }
      return end == E || end == W;
    }

    // The subpackets after a ZDATA, until one ends the frame or is bad.
    method ReceiveData() returns (ok: bool)
      modifies this
      ensures Outcome(if ok then InFile else Failed) == old(Outcome(FileData))
      ensures |input| <= |old(input)|
    {
      while true
        invariant Outcome(FileData) == old(Outcome(FileData)) && |input| <= |old(input)|
        decreases |input|
      {
        ghost var r, said, coming := Now(FileData), replies, input;
        var e := Read(false);
        match e {
          case Bad(_) =>
            Say(ZRPOS, |data|, 2 * resolved + 1);
            PlayStep(c, r, said, coming, Now(InFile), [r.Say(ZRPOS, |r.data|)], replies);
            return true;
          case Whole(content, end) =>
            var last := TakeBlock(content, end);
            ghost var reaction := HearFileData(r, e);
            PlayStep(c, r, said, coming, reaction.receiver, reaction.replies, replies);
            if last {
              return true;
            }
          case _ =>
            PlayStep(c, r, said, coming, Now(Failed), [], replies);
            return false;
        }
      }
    }
  }

  // Whether a loop goes on, or stops with an answer.
  datatype Going = GoOn | Stop(ok: bool) {
    function At(mode: Mode): Mode {
      match this
      case GoOn => mode
      case Stop(ok) => if ok then Finished else Failed
    }
  }

  // ---- The sender ----

  // A read's end, and whether five seconds have passed since the opening
  // request last went out.
  datatype Tick = Tick(e: Event, askAgain: bool)

  function NextTick(input: seq<Tick>): Tick {
    if input == [] || input[0].e.Whole? || input[0].e.TooBig? then Tick(Closed, false) else input[0]
  }

  datatype SenderPlayed = SenderPlayed(sender: Sender, items: seq<Item>, rest: seq<Tick>)

  function PhaseRank(phase: Phase): nat {
    match phase
    case Placing => 4
    case Sending => 3
    case Opening => 2
    case AtEnd => 2
    case Closing => 2
    case Done => 0
    case GaveUp => 0
    case Overread => 0
    case _ => 1
  }

  // All the sender does from `s` on, having sent `items`. While opening, it
  // asks again when it is time to.
  function PlaySender(c: Config, s: Sender, items: seq<Item>, input: seq<Tick>): SenderPlayed
    decreases |input|, PhaseRank(s.phase)
  {
    if PhaseRank(s.phase) == 0 || !HasFile(c, s) then SenderPlayed(s, items, input)
    else if s.phase == Starting then
      var tick := NextTick(input);
      var next := ListenStarting(c, s, tick.e);
      PlaySender(c, next, items + if next == s && tick.askAgain then Speak(c, s).items else [], Later(input))
    else if s.Speaks() then
      var said := Speak(c, s);
      PlaySender(c, said.sender, items + said.items, input)
    else
      var said := Listen(c, s, NextTick(input).e);
      PlaySender(c, said.sender, items + said.items, Later(input))
  }

  lemma SpeakStep(c: Config, s: Sender, items: seq<Item>, input: seq<Tick>, said: Answer, after: seq<Item>)
    requires HasFile(c, s) && s.Speaks() && s.phase != Starting && said == Speak(c, s) && after == items + said.items
    ensures PlaySender(c, s, items, input) == PlaySender(c, said.sender, after, input)
  {
  }

  lemma ListenStep(c: Config, s: Sender, items: seq<Item>, input: seq<Tick>, said: Answer, after: seq<Item>)
    requires HasFile(c, s) && s.Listens() && s.phase != Starting && said == Listen(c, s, NextTick(input).e)
    requires after == items + said.items
    ensures PlaySender(c, s, items, input) == PlaySender(c, said.sender, after, Later(input))
  {
  }

  class SenderProgram {
    const c: Config
    var input: seq<Tick>
    var items: seq<Item>

    constructor (c: Config, input: seq<Tick>)
      ensures this.c == c && this.input == input && items == []
    {
      this.c := c;
      this.input := input;
      items := [];
    }

    ghost function Outcome(s: Sender): SenderPlayed
      reads this
    {
      PlaySender(c, s, items, input)
    }

    method Read() returns (tick: Tick)
      modifies `input
      ensures tick == NextTick(old(input)) && input == Later(old(input))
    {
      tick := Tick(Closed, false);
      if input != [] {
        if !input[0].e.Whole? && !input[0].e.TooBig? {
          tick := input[0];
        }
        input := input[1..];
      }
    }

    method Send(item: Item)
      modifies `items
      ensures items == old(items) + [item]
    {
      items := items + [item];
    }

    method Run() returns (ok: bool, ghost end: Sender)
      requires items == []
      modifies this
      ensures SenderPlayed(end, items, input) == PlaySender(c, NewSender(), [Header(ZRQINIT, 0, 0, 0)], old(input))
      ensures ok <==> end.phase == Done
    {
      Send(Header(ZRQINIT, 0, 0, 0));
      assert items == [Header(ZRQINIT, 0, 0, 0)];
      ok, end := Begin();
      var file := 0;
      while ok && file < |c.files|
        invariant file <= |c.files|
        invariant Outcome(end) == PlaySender(c, NewSender(), [Header(ZRQINIT, 0, 0, 0)], old(input))
        invariant if ok then end == Turn(c, file) else end.phase == GaveUp || end.phase == Overread
      {
        ok, end := SendFile(file);
        file := file + 1;
      }
      if ok {
        end := Finish();
      }
    }

    // Opens with the request a receiver answers, until it does.
    method Begin() returns (ok: bool, ghost end: Sender)
      modifies this
      ensures Outcome(end) == old(Outcome(NewSender()))
      ensures if ok then end == Turn(c, 0) else end.phase == GaveUp
    {
      while true
        invariant Outcome(NewSender()) == old(Outcome(NewSender()))
        decreases |input|
      {
        ghost var said, coming := items, input;
        var tick := Read();
        end := ListenStarting(c, NewSender(), tick.e);
        assert items + [] == items;
        match tick.e {
          case Heard(kind, _) =>
            if kind == ZRINIT {
              return true, end;
            }
            if kind == ZCAN || kind == ZABORT {
              return false, end;
            }
          case Bad(late) =>
            if late {
              return false, end;
            }
          case Waited(late) =>
            if late {
              return false, end;
            }
          case _ =>
            return false, end;
        }
        if tick.askAgain {
          Send(Header(ZRQINIT, 0, 0, 0));
        }
      }
    }

    method SendFile(file: nat) returns (ok: bool, ghost end: Sender)
      requires file < |c.files|
      modifies this
      ensures Outcome(end) == old(Outcome(Turn(c, file)))
      ensures if ok then end == Turn(c, file + 1) else end.phase == GaveUp || end.phase == Overread
    {
      ghost var s := Sender(Offering, file, 0);
      ghost var before := items;
      Send(Header(ZFILE, 0, file, 0));
      Send(Offer(c.offers[file], file));
      SpeakStep(c, Turn(c, file), before, input, Answer(s, [Header(ZFILE, 0, file, 0), Offer(c.offers[file], file)]), items);
      while true
        invariant Outcome(s) == old(Outcome(Turn(c, file)))
        decreases |input|
      {
        ghost var said, coming := items, input;
        var tick := Read();
        var e := tick.e;
        ghost var answer := Listen(c, s, e);
        assert said + [] == said;
        if e.Heard? && e.kind == ZSKIP {
          ListenStep(c, s, said, coming, answer, items);
          return true, answer.sender;
        }
        if e.Heard? && e.kind == ZRPOS {
          ListenStep(c, s, said, coming, answer, items);
          ok, end := SendData(file, Min(e.pos, |c.files[file].data|));
          return;
        }
        if e.Heard? && e.kind == ZCRC {
          Send(Header(ZCRC, 0, file, 0));
        } else if GivesUp(e) {
          ListenStep(c, s, said, coming, answer, items);
          return false, answer.sender;
        }
        ListenStep(c, s, said, coming, answer, items);
      }
    }

    // Whether what came instead of a useful header ends the wait for one.
    predicate GivesUp(e: Event) {
      match e
      case Heard(kind, _) => kind == ZCAN || kind == ZABORT || kind == ZFERR
      case Bad(late) => late
      case Waited(late) => late
      case _ => true
    }

    // From the place asked for to the end of the file, again from wherever the
    // receiver asks to go back to.
    method SendData(file: nat, start: nat) returns (ok: bool, ghost end: Sender)
      requires file < |c.files|
      modifies this
      ensures Outcome(end) == old(Outcome(Sender(Placing, file, start)))
      ensures if ok then end == Turn(c, file + 1) else end.phase == GaveUp || end.phase == Overread
    {
      var size := |c.files[file].data|;
      var position := start;
      while true
        invariant Outcome(Sender(Placing, file, position)) == old(Outcome(Sender(Placing, file, start)))
        decreases |input|
      {
        Place(file, position);
        var course;
        course, end := SendBlocks(file, position);
        match course {
          case Sent =>
            EndFile(file, end);
            var ended;
            ended, end := AwaitEnd(file, end.(phase := Ending));
            match ended {
              case Sent => return true, end;
              case Back(at) => position := at;
              case _ => return false, end;
            }
          case Back(at) => position := at;
          case _ => return false, end;
        }
      }
    }

    method Place(file: nat, position: nat)
      requires file < |c.files|
      modifies `items
      ensures Outcome(Sender(Sending, file, position)) == old(Outcome(Sender(Placing, file, position)))
    {
      ghost var s, said := Sender(Placing, file, position), items;
      Send(Header(ZDATA, position % TWO_32, file, position));
      SpeakStep(c, s, said, input, Speak(c, s), items);
    }

    method EndFile(file: nat, ghost s: Sender)
      requires file < |c.files| && s.phase == AtEnd && s.file == file
      modifies `items
      ensures Outcome(s.(phase := Ending)) == old(Outcome(s))
    {
      ghost var said := items;
      var size := |c.files[file].data|;
      Send(Header(ZEOF, size % TWO_32, file, size));
      SpeakStep(c, s, said, input, Speak(c, s), items);
    }

    // Blocks until the file's last, or until the receiver asks to go back.
    method SendBlocks(file: nat, from: nat) returns (course: Course, ghost end: Sender)
      requires file < |c.files|
      modifies this
      ensures Outcome(end) == old(Outcome(Sender(Sending, file, from)))
      ensures Fits(course, file, end)
      ensures |input| <= |old(input)| && (course.Back? ==> |input| < |old(input)|)
    {
      var bytes := c.files[file].data;
      var position: nat := from;
      while true
        invariant Outcome(Sender(Sending, file, position)) == old(Outcome(Sender(Sending, file, from)))
        invariant |input| <= |old(input)|
        decreases |input|
      {
        ghost var s, said := Sender(Sending, file, position), items;
        if position > |bytes| {
          // The source reads on here, past the end.
          SpeakStep(c, s, said, input, Speak(c, s), items + []);
          assert items + [] == items;
          return PastEnd, s.(phase := Overread);
        }
        var count := Min(BLOCK_SIZE, |bytes| - position);
        var last := position + count >= |bytes|;
        Send(Packet(bytes[position..position + count], if last then E else G, file, position));
        SpeakStep(c, s, said, input, Speak(c, s), items);
        position := position + count;
        if last {
          return Sent, Sender(AtEnd, file, position);
        }
        course, end := CheckForRestart(file, position);
        if course != Sent {
          return;
        }
      }
    }

    // Looks for a request from the receiver while data is going out.
    method CheckForRestart(file: nat, position: nat) returns (course: Course, ghost end: Sender)
      requires file < |c.files|
      modifies `input
      ensures Outcome(end) == old(Outcome(Sender(Checking, file, position)))
      ensures match course
              case Sent => end == Sender(Sending, file, position)
              case Back(at) => end == Sender(Placing, file, at)
              case GivenUp => end.phase == GaveUp
              case PastEnd => false
      ensures input == Later(old(input)) && (old(input) == [] ==> course == GivenUp)
    {
      ghost var coming := input;
      var tick := Read();
      ghost var answer := Listen(c, Sender(Checking, file, position), tick.e);
      assert items + [] == items;
      ListenStep(c, Sender(Checking, file, position), items, coming, answer, items);
      end := answer.sender;
      match tick.e {
        case Heard(kind, pos) =>
          if kind == ZCAN || kind == ZABORT {
            course := GivenUp;
          } else if kind == ZRPOS {
            course := Back(pos);
          } else {
            course := Sent;
          }
        case Closed => course := GivenUp;
        case Cancelled => course := GivenUp;
        case _ => course := Sent;
      }
    }

    // After ZEOF: ready for the next file, or a request to resend.
    method AwaitEnd(file: nat, ghost s: Sender) returns (course: Course, ghost end: Sender)
      requires file < |c.files| && s.phase == Ending && s.file == file
      modifies this
      ensures Outcome(end) == old(Outcome(s))
      ensures match course
              case Sent => end == Turn(c, file + 1)
              case Back(at) => end == Sender(Placing, file, at)
              case GivenUp => end.phase == GaveUp
              case PastEnd => false
      ensures |input| <= |old(input)| && (course.Back? ==> |input| < |old(input)|)
    {
      while true
        invariant Outcome(s) == old(Outcome(s))
        invariant |input| <= |old(input)|
        decreases |input|
      {
        ghost var coming := input;
        var tick := Read();
        var e := tick.e;
        ghost var answer := Listen(c, s, e);
        assert items + [] == items;
        ListenStep(c, s, items, coming, answer, items);
        if e.Heard? && e.kind == ZRINIT {
          return Sent, answer.sender;
        }
        if e.Heard? && e.kind == ZRPOS {
          return Back(Min(e.pos, |c.files[file].data|)), answer.sender;
        }
        if GivesUp(e) {
          return GivenUp, answer.sender;
        }
      }
    }

    method Finish() returns (ghost end: Sender)
      modifies this
      ensures Outcome(end) == old(Outcome(Sender(Closing, |c.files|, 0))) && end.phase == Done
    {
      ghost var s, said := Sender(Finishing, |c.files|, 0), items;
      Send(Header(ZFIN, 0, |c.files|, 0));
      SpeakStep(c, Sender(Closing, |c.files|, 0), said, input, Speak(c, Sender(Closing, |c.files|, 0)), items);
      while true
        invariant Outcome(s) == old(Outcome(Sender(Closing, |c.files|, 0)))
        decreases |input|
      {
        ghost var coming := input;
        var tick := Read();
        ghost var answer := Listen(c, s, tick.e);
        assert items + [] == items;
        ListenStep(c, s, items, coming, answer, items);
        end := answer.sender;
        match tick.e {
          case Heard(kind, _) =>
            if kind == ZFIN {
              return;
            }
          case Bad(late) =>
            if late {
              return;
            }
          case Waited(late) =>
            if late {
              return;
            }
          case Closed => return;
          case _ =>
        }
      }
    }
  }

  // How a stretch of sending ended: all sent, asked to go back, given up, or
  // past the end of the bytes.
  datatype Course = Sent | Back(at: nat) | GivenUp | PastEnd

  predicate Fits(course: Course, file: nat, end: Sender) {
    match course
    case Sent => end.phase == AtEnd && end.file == file
    case Back(at) => end == Sender(Placing, file, at)
    case GivenUp => end.phase == GaveUp
    case PastEnd => end.phase == Overread
  }
}
