// Recovery. From any state in which the sender is in the data of a file the
// receiver takes, whatever was garbled or lost on the way there, the file can
// still arrive whole, and the batch with it, once nothing goes wrong any more.
// There is one exception: both ends can be left waiting for each other.
module ZmodemRecovery {
  import opened Bytes
  import opened ZmodemArrivals
  import opened ZmodemFileInfo
  import opened ZmodemHolding
  import opened ZmodemInvariant
  import opened ZmodemKinds
  import opened ZmodemMachine
  import opened ZmodemReceiverSteps
  import opened ZmodemRuns
  import opened ZmodemSafety
  import opened ZmodemSenderSteps

  // Both ends in the middle of a file that is taken.
  predicate InTakenFile(c: Config, st: State) {
    st.s.InData() && st.r.Running() && Takes(c, st.s.file) && Size(c, st.s.file) < TWO_32
  }

  predicate Asks(back: seq<Reply>) {
    exists k :: 0 <= k < |back| && back[k].kind == ZRPOS
  }

  // The sender has sent the file's end and waits for an answer; the receiver
  // waits for more of the file; and nothing is on its way to it, nor a request
  // on its way back.
  predicate Stranded(st: State) {
    st.s.phase == Ending && st.r.HoldsFile() && st.forth == [] && !Asks(st.back)
  }

  // Faithful steps from states of which all that is known holds.
  ghost predicate Course(c: Config, reach: iset<State>) {
    Steady(c, reach) && forall st :: st in reach ==> Well(c, st)
  }

  lemma FromIsCourse(c: Config, start: State)
    requires Well(c, start)
    ensures start in From(c, start) && Course(c, From(c, start))
  {
    FromIsSteady(c, start);
    forall st | st in From(c, start) ensures Well(c, st) {
      var actions :| LeadsFaithfully(c, start, actions, st);
      FaithfulIsHarmless(c, start, actions, st);
      RunIsWell(c, start, actions, st);
    }
  }

  // ---- Where the receiver is ----

  lemma InOrPastFile(c: Config, st: State)
    requires Well(c, st) && InTakenFile(c, st)
    ensures ((st.r.mode == InFile || st.r.mode == FileData) && st.r.resolved == st.s.file) || Idle(st.r, st.s.file + 1)
    ensures st.r.HoldsFile() ==> |st.r.data| <= Size(c, st.s.file) && st.r == Holder(c, st.s.file, st.r, st.r.mode, |st.r.data|)
  {
  }

  // The sender after its file's end, with nothing left on the line.
  predicate Waiting(c: Config, st: State, n: nat) {
    st.s.phase == Ending && st.s.file == n && st.forth == [] && InTakenFile(c, st)
  }

  // ---- Reading what is left on the line ----

  lemma FirstToRead(forth: seq<Item>) returns (k: nat)
    requires forth != [] && EndsInEnd(forth)
    ensures k < |forth| && NoHeaders(forth[..k]) && (forth[k].Header? || forth[k].Garbled?)
  {
    k := 0;
    while !forth[k].Header? && !forth[k].Garbled?
      invariant k < |forth| && NoHeaders(forth[..k])
      decreases |forth| - k
    {
      k := k + 1;
    }
  }

  // The receiver in a file reads on: it goes on holding the file, or has all
  // of it. What ends the line makes it ask.
  lemma ReadsOn(c: Config, reach: iset<State>, st: State) returns (next: State)
    requires Steady(c, reach) && st in reach && Well(c, st) && InTakenFile(c, st) && st.s.phase == Ending && st.forth != [] && st.r.HoldsFile()
    ensures next in reach && next.s == st.s && |next.forth| < |st.forth| && next.r.Running()
    ensures next.r.HoldsFile() ==> st.back <= next.back && (next.forth == [] ==> Asks(next.back))
  {
    var n := st.s.file;
    InOrPastFile(c, st);
    if st.r.mode == FileData && st.forth[0].Packet? {
      next := ReadsBlock(c, reach, st);
    } else if st.r.mode == FileData {
      assert Fits(ContAt(Wants(st.r), st.forth, 0), st.forth[0]);
      next := State(st.s, st.r.(mode := InFile), st.forth[1..], st.back + [st.r.Say(ZRPOS, |st.r.data|)]);
      Hears(c, reach, st, Bad(false), 1, Reaction(next.r, [st.r.Say(ZRPOS, |st.r.data|)]));
      assert next.back[|st.back|].kind == ZRPOS;
    } else {
      var k := FirstToRead(st.forth);
      if st.forth[k].Header? {
        LeftInFile(c, st, k);
      }
      next := ReadsHeader(c, reach, st, k);
    }
  }

  lemma ReadsBlock(c: Config, reach: iset<State>, st: State) returns (next: State)
    requires Steady(c, reach) && st in reach && Well(c, st) && InTakenFile(c, st) && st.s.phase == Ending
    requires st.forth != [] && st.r.mode == FileData && st.forth[0].Packet?
    ensures next in reach && next.s == st.s && next.forth == st.forth[1..] && next.forth != []
    ensures next.r.HoldsFile() && st.back <= next.back
  {
    var content, end := st.forth[0].content, st.forth[0].end;
    InOrPastFile(c, st);
    assert Fits(ContAt(Wants(st.r), st.forth, 0), st.forth[0]) && Truthful(c, st.forth[0]);
    assert ReceiverCanHear(st.r, st.forth, Whole(content, end), 1, false, c.limit);
    var reaction := Hear(c, st.r, Whole(content, end));
    next := State(st.s, reaction.receiver, st.forth[1..], st.back + reaction.replies);
    Hears(c, reach, st, Whole(content, end), 1, reaction);
  }

  // What reading a header, or something spoilt, ends in.
  function EventOf(item: Item): Event
    requires item.Header? || item.Garbled?
  {
    if item.Header? then Heard(item.kind, item.pos) else Bad(false)
  }

  // The next header, or spoilt item, is read, past what is neither.
  lemma ReadNext(c: Config, reach: iset<State>, st: State, k: nat, reaction: Reaction)
    requires Steady(c, reach) && st in reach && HasFile(c, st.s) && st.r.AwaitsHeader()
    requires k < |st.forth| && NoHeaders(st.forth[..k]) && (st.forth[k].Header? || st.forth[k].Garbled?)
    requires reaction == Hear(c, st.r, EventOf(st.forth[k]))
    ensures State(st.s, reaction.receiver, st.forth[k + 1..], st.back + reaction.replies) in reach
  {
    Hears(c, reach, st, EventOf(st.forth[k]), k + 1, reaction);
  }

  // A header that can still be on the line after a file's end was sent.
  predicate CanBeLeft(item: Item) {
    item.Garbled?
    || (item.Header? && (item.kind == ZRQINIT || item.kind == ZDATA || item.kind == ZEOF || item.kind == ZCRC))
  }

  lemma ReadsHeader(c: Config, reach: iset<State>, st: State, k: nat) returns (next: State)
    requires Steady(c, reach) && st in reach && HasFile(c, st.s) && st.r.mode == InFile
    requires k < |st.forth| && NoHeaders(st.forth[..k]) && CanBeLeft(st.forth[k])
    requires k == |st.forth| - 1 && st.forth[k].Header? ==> st.forth[k].kind == ZEOF
    ensures next in reach && next.s == st.s && next.forth == st.forth[k + 1..] && next.r.Running()
    ensures next.r.HoldsFile() ==> st.back <= next.back && (next.forth == [] ==> Asks(next.back))
  {
    var e := EventOf(st.forth[k]);
    InFileReacts(c, st.r, e);
    var reaction := Hear(c, st.r, e);
    next := State(st.s, reaction.receiver, st.forth[k + 1..], st.back + reaction.replies);
    ReadNext(c, reach, st, k, reaction);
    if next.r.HoldsFile() && next.forth == [] {
      assert next.back[|st.back|].kind == ZRPOS;
    }
  }

  // Of the headers that can be on their way into a file.
  lemma LeftInFile(c: Config, st: State, k: nat)
    requires Well(c, st) && InTakenFile(c, st) && st.s.phase == Ending && st.r.HoldsFile()
    requires k < |st.forth| && st.forth[k].Header?
    ensures CanBeLeft(st.forth[k])
    ensures k == |st.forth| - 1 ==> st.forth[k].kind == ZEOF
  {
    assert IsSaidBySender(st.forth[k]) && IsFile(st.forth[k], st.s.file) && Truthful(c, st.forth[k]) && OfferIsCurrent(st, k);
  }

  lemma InFileReacts(c: Config, r: Receiver, e: Event)
    requires r.mode == InFile
    requires e == Bad(false) || (e.Heard? && (e.kind == ZRQINIT || e.kind == ZDATA || e.kind == ZEOF || e.kind == ZCRC))
    ensures Hear(c, r, e).receiver.Running()
    ensures e == Bad(false) || e.kind == ZEOF ==>
              || Hear(c, r, e) == Reaction(r, [r.Say(ZRPOS, |r.data|)])
              || Idle(Hear(c, r, e).receiver, r.resolved + 1)
  {
  }

  // Between files it reads on as well, and none of it matters.
  lemma ReadsOnBetween(c: Config, reach: iset<State>, st: State) returns (next: State)
    requires Steady(c, reach) && st in reach && Well(c, st) && InTakenFile(c, st) && st.s.phase == Ending && st.forth != []
    requires Idle(st.r, st.s.file + 1)
    ensures next in reach && next.s == st.s && |next.forth| < |st.forth| && next.r == st.r
  {
    var k := FirstToRead(st.forth);
    if st.forth[k].Header? {
      LeftBehind(c, st, k);
    }
    next := ReadsInPassing(c, reach, st, k);
  }

  lemma ReadsInPassing(c: Config, reach: iset<State>, st: State, k: nat) returns (next: State)
    requires Steady(c, reach) && st in reach && HasFile(c, st.s) && st.r.mode == Between
    requires k < |st.forth| && NoHeaders(st.forth[..k]) && CanBeLeft(st.forth[k])
    ensures next in reach && next.s == st.s && next.forth == st.forth[k + 1..] && next.r == st.r
  {
    var e := EventOf(st.forth[k]);
    BetweenReacts(c, st.r, e);
    var reaction := Hear(c, st.r, e);
    next := State(st.s, reaction.receiver, st.forth[k + 1..], st.back + reaction.replies);
    ReadNext(c, reach, st, k, reaction);
  }

  lemma LeftBehind(c: Config, st: State, k: nat)
    requires Well(c, st) && InTakenFile(c, st) && st.s.phase == Ending && Idle(st.r, st.s.file + 1)
    requires k < |st.forth| && st.forth[k].Header?
    ensures CanBeLeft(st.forth[k])
  {
    assert IsSaidBySender(st.forth[k]) && NotAhead(st.forth[k], st.s.file) && Truthful(c, st.forth[k]) && OfferIsCurrent(st, k);
  }

  lemma BetweenReacts(c: Config, r: Receiver, e: Event)
    requires r.mode == Between
    requires e == Bad(false) || (e.Heard? && (e.kind == ZRQINIT || e.kind == ZDATA || e.kind == ZEOF || e.kind == ZCRC))
    ensures Hear(c, r, e).receiver == r
  {
  }

  // Until nothing is left.
  lemma {:induction false} ReadsAll(c: Config, reach: iset<State>, st: State) returns (end: State)
    requires Course(c, reach) && st in reach && InTakenFile(c, st) && st.s.phase == Ending
    ensures end in reach && end.s == st.s && Waiting(c, end, st.s.file)
    ensures end.r.HoldsFile() && (st.forth != [] || Asks(st.back)) ==> Asks(end.back)
    ensures !st.r.HoldsFile() ==> end.r == st.r
    decreases |st.forth|
  {
    InOrPastFile(c, st);
    if st.forth == [] {
      end := st;
    } else if st.r.HoldsFile() {
      var next := ReadsOn(c, reach, st);
      end := ReadsAll(c, reach, next);
      assert next.r.HoldsFile() && Asks(st.back) ==> Asks(next.back);
    } else {
      var next := ReadsOnBetween(c, reach, st);
      end := ReadsAll(c, reach, next);
    }
  }

  // ---- Going back ----

  // How many replies come before a request for `length`.
  function UpTo(back: seq<Reply>, length: nat): nat {
    if back == [] || IsRequest(back[0], length) then 0 else 1 + UpTo(back[1..], length)
  }

  predicate IsRequest(reply: Reply, length: nat) {
    reply.kind == ZRPOS && reply.pos == length
  }

  lemma {:induction false} UpToNext(back: seq<Reply>, next: Reply, length: nat)
    requires IsRequest(next, length)
    ensures UpTo(back + [next], length) == UpTo(back, length)
  {
    if back != [] {
      assert (back + [next])[1..] == back[1..] + [next];
      UpToNext(back[1..], next, length);
    }
  }

  // A reply that asks for nothing, and does not say the file was received, is
  // passed over.
  lemma PassedOver(c: Config, reach: iset<State>, st: State)
    requires Steady(c, reach) && st in reach && Well(c, st) && Waiting(c, st, st.s.file) && st.back != []
    requires st.back[0].kind != ZRPOS && st.back[0].kind != ZRINIT
    ensures State(st.s, st.r, [], st.back[1..]) in reach
  {
    assert IsSaidByReceiver(st.back[0]);
    ReplyHeard(c, reach, st, st.s);
  }

  // A request is heard, and the sender goes back.
  lemma GoesBack(c: Config, reach: iset<State>, st: State)
    requires Steady(c, reach) && st in reach && Well(c, st) && Waiting(c, st, st.s.file) && st.back != [] && st.back[0].kind == ZRPOS
    ensures st.back[0].pos <= Size(c, st.s.file)
    ensures State(Sender(Placing, st.s.file, st.back[0].pos), st.r, [], st.back[1..]) in reach
  {
    RequestIsForThisFile(c, st, 0);
    ReplyHeard(c, reach, st, Sender(Placing, st.s.file, st.back[0].pos));
  }

  // From where the receiver is, the file arrives.
  lemma ArrivesFromThere(c: Config, reach: iset<State>, st: State) returns (end: State)
    requires Steady(c, reach) && st in reach && Well(c, st) && Waiting(c, st, st.s.file) && st.r.mode == InFile
    requires st.back != [] && IsRequest(st.back[0], |st.r.data|)
    ensures end in reach && Waiting(c, end, st.s.file) && Idle(end.r, st.s.file + 1)
  {
    var n, length, back := st.s.file, |st.r.data|, st.back[1..];
    InOrPastFile(c, st);
    GoesBack(c, reach, st);
    DataBegins(c, reach, n, st.r, length, back);
    RestArrives(c, reach, n, st.r, length, back);
    EndIsHeard(c, reach, n, st.r, back);
    end := State(Sender(Ending, n, Size(c, n)), Received(c, n, st.r, Size(c, n)), [], back + [Reply(ZRINIT, 0, 2 * (n + 1), 0)]);
  }

  // Sent again from somewhere: the header that says where, noise, and the end.
  lemma SentAgain(c: Config, reach: iset<State>, st: State) returns (end: State, noise: seq<Item>)
    requires Steady(c, reach) && st in reach && st.s.phase == Placing && st.forth == []
    requires st.s.file < |c.files| && st.s.position <= Size(c, st.s.file) && st.s.position < TWO_32
    ensures end in reach && end.s.phase == Ending && end.s.file == st.s.file && end.r == st.r && end.back == st.back
    ensures NoHeaders(noise)
    ensures end.forth == [Header(ZDATA, st.s.position, st.s.file, st.s.position)] + noise + [EndOf(c, st.s.file)]
  {
    var next := State(st.s.(phase := Sending), st.r, [Header(ZDATA, st.s.position, st.s.file, st.s.position)], st.back);
    Reached(c, reach, st, SenderSpeaks, next);
    end, noise := SendsTheRest(c, reach, next);
  }

  // Not from where the receiver is, or not when it waits for a header: it asks
  // twice for where it is, unless it turns out to have all of the file.
  lemma AsksTwice(c: Config, reach: iset<State>, st: State) returns (end: State)
    requires Steady(c, reach) && st in reach && Well(c, st) && Waiting(c, st, st.s.file) && st.r.HoldsFile()
    requires st.back != [] && st.back[0].kind == ZRPOS
    requires st.r.mode == InFile ==> st.back[0].pos != |st.r.data|
    ensures end in reach && Waiting(c, end, st.s.file)
    ensures Idle(end.r, st.s.file + 1) || (end.r == st.r.(mode := InFile) && HasAskedTwice(st, end))
  {
    InOrPastFile(c, st);
    GoesBack(c, reach, st);
    RequestIsForThisFile(c, st, 0);
    end := AskedTwice(c, reach, State(Sender(Placing, st.s.file, st.back[0].pos), st.r, [], st.back[1..]));
  }

  lemma AskedTwice(c: Config, reach: iset<State>, st: State) returns (end: State)
    requires Steady(c, reach) && st in reach && st.s.phase == Placing && st.forth == [] && InTakenFile(c, st)
    requires st.s.position <= Size(c, st.s.file) && st.r.resolved == st.s.file
    requires st.r.mode == FileData || (st.r.mode == InFile && st.s.position != |st.r.data|)
    ensures end in reach && Waiting(c, end, st.s.file)
    ensures var again := st.r.Say(ZRPOS, |st.r.data|);
            Idle(end.r, st.s.file + 1) || (end.r == st.r.(mode := InFile) && end.back == st.back + [again] + [again])
  {
    var sent, noise := SentAgain(c, reach, st);
    var again, rest := st.r.Say(ZRPOS, |st.r.data|), noise + [EndOf(c, st.s.file)];
    assert sent.forth[1..] == rest;
    var next := State(sent.s, st.r.(mode := InFile), rest, st.back + [again]);
    Hears(c, reach, sent, if st.r.mode == InFile then Heard(ZDATA, st.s.position) else Bad(false), 1,
          Reaction(next.r, [again]));
    end := EndMet(c, reach, next, noise);
  }

  predicate HasAskedTwice(st: State, end: State) {
    var again := st.r.Say(ZRPOS, |st.r.data|);
    st.back != [] && end.back == st.back[1..] + [again] + [again]
  }

  // Past noise, the file's end is met.
  lemma EndMet(c: Config, reach: iset<State>, st: State, noise: seq<Item>) returns (end: State)
    requires Steady(c, reach) && st in reach && InTakenFile(c, st) && st.s.phase == Ending && st.r.mode == InFile
    requires st.r.resolved == st.s.file && NoHeaders(noise) && st.forth == noise + [EndOf(c, st.s.file)]
    ensures end in reach && Waiting(c, end, st.s.file)
    ensures Idle(end.r, st.s.file + 1)
         || (end.r == st.r && end.back == st.back + [st.r.Say(ZRPOS, |st.r.data|)])
  {
    var k, e := |noise|, Heard(ZEOF, Size(c, st.s.file));
    assert st.forth[..k] == noise && st.forth[k + 1..] == [] && st.forth[k] == EndOf(c, st.s.file);
    InFileReacts(c, st.r, e);
    var reaction := Hear(c, st.r, e);
    end := State(st.s, reaction.receiver, [], st.back + reaction.replies);
    Hears(c, reach, st, e, k + 1, reaction);
  }

  // As long as the file is being received, the receiver has not been ready for
  // the next.
  lemma NotReadyYet(c: Config, st: State)
    requires Well(c, st) && InTakenFile(c, st) && st.r.HoldsFile() && st.back != []
    ensures st.back[0].kind != ZRINIT
  {
    assert Sound(c, st, st.back[0]);
  }

  lemma AsksStill(back: seq<Reply>)
    requires Asks(back) && back[0].kind != ZRPOS
    ensures Asks(back[1..])
  {
    var k :| 0 <= k < |back| && back[k].kind == ZRPOS;
    assert back[1..][k - 1].kind == ZRPOS;
  }

  // Sooner or later a request for where the receiver is gets its answer.
  lemma {:induction false} Answered(c: Config, reach: iset<State>, st: State) returns (end: State)
    requires Course(c, reach) && st in reach && Waiting(c, st, st.s.file) && st.r.HoldsFile() && Asks(st.back)
    ensures end in reach && Waiting(c, end, st.s.file) && Idle(end.r, st.s.file + 1)
    decreases if st.r.mode == InFile then 0 else 1, UpTo(st.back, |st.r.data|)
  {
    InOrPastFile(c, st);
    var length := |st.r.data|;
    if st.r.mode == InFile && IsRequest(st.back[0], length) {
      end := ArrivesFromThere(c, reach, st);
    } else if st.back[0].kind == ZRPOS {
      var next := AsksTwice(c, reach, st);
      if Idle(next.r, st.s.file + 1) {
        end := next;
      } else {
        var again := st.r.Say(ZRPOS, length);
        assert IsRequest(again, length) && next.back[|next.back| - 1] == again;
        UpToNext(st.back[1..], again, length);
        UpToNext(st.back[1..] + [again], again, length);
        end := Answered(c, reach, next);
      }
    } else {
      NotReadyYet(c, st);
      PassedOver(c, reach, st);
      var next := State(st.s, st.r, [], st.back[1..]);
      AsksStill(st.back);
      end := Answered(c, reach, next);
    }
  }

  // ---- The whole file ----

  // The sender goes on to the file's end, if it has not come to it.
  lemma ToTheEnd(c: Config, reach: iset<State>, st: State) returns (end: State)
    requires Steady(c, reach) && st in reach && Well(c, st) && InTakenFile(c, st)
    ensures end in reach && end.s.phase == Ending && end.s.file == st.s.file && end.r == st.r && end.back == st.back
    ensures if st.s.phase == Ending then end == st else end.forth != []
  {
    if st.s.phase == Ending {
      end := st;
    } else if st.s.phase == Placing {
      end := SendsAll(c, reach, st);
    } else {
      var noise;
      end, noise := SendsTheRest(c, reach, st);
    }
  }

  lemma SendsAll(c: Config, reach: iset<State>, st: State) returns (end: State)
    requires Steady(c, reach) && st in reach && st.s.phase == Placing && st.s.file < |c.files| && st.s.position <= Size(c, st.s.file)
    ensures end in reach && end.s.phase == Ending && end.s.file == st.s.file && end.r == st.r && end.back == st.back
    ensures end.forth != []
  {
    var data := Header(ZDATA, st.s.position % TWO_32, st.s.file, st.s.position);
    var next := State(st.s.(phase := Sending), st.r, st.forth + [data], st.back);
    Reached(c, reach, st, SenderSpeaks, next);
    var noise;
    end, noise := SendsTheRest(c, reach, next);
  }

  // Unless both are stranded, the receiver gets all of the file.
  lemma GetsAll(c: Config, reach: iset<State>, st: State) returns (end: State)
    requires Course(c, reach) && st in reach && InTakenFile(c, st) && !Stranded(st)
    ensures end in reach && Waiting(c, end, st.s.file) && Idle(end.r, st.s.file + 1)
  {
    var sent := ToTheEnd(c, reach, st);
    end := ReadsAll(c, reach, sent);
    InOrPastFile(c, end);
    if end.r.HoldsFile() {
      end := Answered(c, reach, end);
    }
  }

  // ---- On to the next ----

  // The receiver says again that it is ready, now and then.
  lemma {:induction false} ReadyAgain(c: Config, reach: iset<State>, st: State) returns (end: State)
    requires Steady(c, reach) && st in reach && HasFile(c, st.s) && st.r.mode == Between && st.forth == [] && st.back == []
    ensures end in reach && end.s == st.s && end.forth == [] && end.back == [st.r.Ready()]
    ensures end.r == st.r.(asks := end.r.asks)
    decreases 2 - st.r.asks % 3
  {
    var r := st.r.(asks := st.r.asks + 1);
    var ready := if r.asks % 3 == 0 then [st.r.Ready()] else [];
    assert st.forth[0..] == [] && [] + ready == ready;
    Hears(c, reach, st, Waited(false), 0, Reaction(r, ready));
    var next := State(st.s, r, [], ready);
    if ready == [] {
      end := ReadyAgain(c, reach, next);
    } else {
      end := next;
    }
  }

  // A request left over from the file is answered in vain.
  lemma AnsweredInVain(c: Config, reach: iset<State>, st: State) returns (end: State)
    requires Steady(c, reach) && st in reach && st.s.phase == Placing && st.forth == [] && st.s.file < |c.files|
    requires st.s.position <= Size(c, st.s.file) && st.s.position < TWO_32 && st.r.mode == Between
    ensures end in reach && end.s.phase == Ending && end.s.file == st.s.file && end.r == st.r
    ensures end.forth == [] && end.back == st.back
  {
    var sent, noise := SentAgain(c, reach, st);
    var rest := noise + [EndOf(c, st.s.file)];
    assert sent.forth[1..] == rest && sent.forth[..0] == [];
    BetweenReacts(c, st.r, EventOf(sent.forth[0]));
    ReadNext(c, reach, sent, 0, Reaction(st.r, []));
    assert st.back + [] == st.back;
    var next := State(sent.s, st.r, rest, st.back);
    assert rest[..|noise|] == noise && rest[|noise| + 1..] == [];
    ReadNext(c, reach, next, |noise|, Reaction(st.r, []));
    end := State(sent.s, st.r, [], st.back);
  }

  // What is left after that the receiver was ready once more means nothing.
  lemma LeftOverIsIdle(c: Config, st: State)
    requires Well(c, st) && st.s == Turn(c, st.s.file) && Idle(st.r, st.s.file)
    ensures AllIdle(st.back)
  {
    forall k | 0 <= k < |st.back| ensures IsIdle(st.back[k]) {
      assert Sound(c, st, st.back[k]) && IsSaidByReceiver(st.back[k]);
    }
  }

  // The sender learns that the file was received, though the reply that said so
  // be lost.
  lemma {:induction false} LearnsOfIt(c: Config, reach: iset<State>, st: State) returns (end: State)
    requires Course(c, reach) && st in reach && Waiting(c, st, st.s.file) && Idle(st.r, st.s.file + 1)
    ensures end in reach && end.s == Turn(c, st.s.file + 1) && Idle(end.r, st.s.file + 1) && end.forth == []
    decreases |st.back|, if st.back == [] then 1 else 0
  {
    if st.back == [] {
      var next := ReadyAgain(c, reach, st);
      end := HearsReady(c, reach, next);
    } else if st.back[0].kind == ZRINIT {
      end := HearsReady(c, reach, st);
    } else if st.back[0].kind == ZRPOS {
      GoesBack(c, reach, st);
      RequestIsForThisFile(c, st, 0);
      var next := AnsweredInVain(c, reach, State(Sender(Placing, st.s.file, st.back[0].pos), st.r, [], st.back[1..]));
      end := LearnsOfIt(c, reach, next);
    } else {
      PassedOver(c, reach, st);
      end := LearnsOfIt(c, reach, State(st.s, st.r, [], st.back[1..]));
    }
  }

  lemma HearsReady(c: Config, reach: iset<State>, st: State) returns (end: State)
    requires Steady(c, reach) && st in reach && HasFile(c, st.s) && st.s.phase == Ending && st.forth == []
    requires st.back != [] && st.back[0].kind == ZRINIT
    ensures end in reach && end == State(Turn(c, st.s.file + 1), st.r, [], st.back[1..])
  {
    end := State(Turn(c, st.s.file + 1), st.r, [], st.back[1..]);
    ReplyHeard(c, reach, st, end.s);
  }

  // ---- What is received ----

  // File `n` is among those received, in its place, all of it.
  predicate HasArrived(c: Config, n: nat, r: Receiver) {
    && n < r.resolved <= |c.files| && Takes(c, n)
    && exists k :: 0 <= k < |r.received| == |AcceptedUpTo(c, r.resolved)|
         && AcceptedUpTo(c, r.resolved)[k] == n && r.received[k] == CopyOf(c, n, Size(c, n))
  }

  lemma PastIsArrived(c: Config, n: nat, r: Receiver)
    requires Holding(c, r) && n < r.resolved && Takes(c, n) && Size(c, n) < TWO_32
    ensures HasArrived(c, n, r)
  {
    var k := AcceptedHasAll(c, r.resolved, n);
    assert IsCopy(c, n, r.received[k]);
    assert c.files[n].data[..Size(c, n)] == c.files[n].data;
  }

  // The files after the first `n` can all be passed.
  predicate RestPasses(c: Config, n: nat) {
    forall i :: n <= i < |c.files| ==> Passes(c, i)
  }

  predicate BothSucceed(st: State) {
    st.s.phase == Done && st.r.mode == Finished
  }

  // ---- Exactly when ----

  lemma Recovers(c: Config, st: State) returns (end: State)
    requires Well(c, st) && InTakenFile(c, st) && !Stranded(st)
    ensures CanReach(c, st, end) && HasArrived(c, st.s.file, end.r) && (RestPasses(c, st.s.file + 1) ==> BothSucceed(end))
  {
    FromIsCourse(c, st);
    var reach, n := From(c, st), st.s.file;
    var got := GetsAll(c, reach, st);
    if RestPasses(c, n + 1) {
      end := Succeeds(c, reach, got);
      assert Well(c, end);
    } else {
      end := got;
    }
    PastIsArrived(c, n, end.r);
  }

  lemma Succeeds(c: Config, reach: iset<State>, st: State) returns (end: State)
    requires Course(c, reach) && st in reach && Waiting(c, st, st.s.file) && Idle(st.r, st.s.file + 1)
    requires RestPasses(c, st.s.file + 1)
    ensures end in reach && BothSucceed(end) && end.r.resolved > st.s.file
  {
    var next := LearnsOfIt(c, reach, st);
    LeftOverIsIdle(c, next);
    end := RestOfBatchArrives(c, reach, st.s.file + 1, next.r, next.back);
    assert Well(c, end);
  }

  // Both ends stranded, or since then failed.
  predicate StaysStranded(c: Config, st: State, n: nat) {
    && st.s.file == n && (st.s.phase == Ending || st.s.phase == GaveUp)
    && (st.r.HoldsFile() || st.r.mode == Failed) && st.r.resolved == n && st.forth == [] && !Asks(st.back)
  }

  lemma NoReplyHelps(c: Config, st: State, n: nat)
    requires Well(c, st) && StaysStranded(c, st, n) && st.s.phase == Ending && st.back != []
    ensures st.back[0].kind != ZRINIT && st.back[0].kind != ZRPOS
  {
    assert Sound(c, st, st.back[0]);
  }

  lemma StrandedStays(c: Config, st: State, a: Action, n: nat)
    requires StaysStranded(c, st, n) && Enabled(c, st, a) && Faithful(st, a) && st.r.mode != Again
    requires st.s.phase == Ending && st.back != [] ==> st.back[0].kind != ZRINIT && st.back[0].kind != ZRPOS
    ensures StaysStranded(c, Do(c, st, a), n)
  {
    if a.SenderListens? {
      forall k | 0 <= k < |st.back[a.used..]| ensures st.back[a.used..][k].kind != ZRPOS {
        assert st.back[a.used..][k] == st.back[a.used + k];
      }
    }
  }

  lemma {:induction false} StrandedForGood(c: Config, st: State, actions: seq<Action>, end: State, n: nat)
    requires Well(c, st) && StaysStranded(c, st, n) && LeadsFaithfully(c, st, actions, end)
    ensures end.r.resolved == n
    decreases |actions|
  {
    if actions != [] {
      if st.s.phase == Ending && st.back != [] {
        NoReplyHelps(c, st, n);
      }
      StrandedStays(c, st, actions[0], n);
      StepKeeps(c, st, actions[0]);
      StepKept(c, st, actions[0]);
      StrandedForGood(c, Do(c, st, actions[0]), actions[1..], end, n);
    }
  }

  // From every state that can be reached with both ends in a file that is
  // taken, the file can still arrive whole, with each end only making of the
  // line what is on it, exactly if they are not stranded.
  lemma RecoversIff(c: Config, st: State)
    requires Reachable(c, st) && InTakenFile(c, st)
    ensures (exists end :: CanReach(c, st, end) && HasArrived(c, st.s.file, end.r)) <==> !Stranded(st)
  {
    ReachableIsWell(c, st);
    if Stranded(st) {
      InOrPastFile(c, st);
      forall end | CanReach(c, st, end) ensures !HasArrived(c, st.s.file, end.r) {
        var actions :| LeadsFaithfully(c, st, actions, end);
        StrandedForGood(c, st, actions, end, st.s.file);
      }
    } else {
      var end := Recovers(c, st);
    }
  }

  // And then, if the files after it can be passed, both ends can report
  // success.
  lemma SucceedsUnlessStranded(c: Config, st: State)
    requires Reachable(c, st) && InTakenFile(c, st) && !Stranded(st) && RestPasses(c, st.s.file + 1)
    ensures exists end :: CanReach(c, st, end) && HasArrived(c, st.s.file, end.r) && BothSucceed(end)
  {
    ReachableIsWell(c, st);
    var end := Recovers(c, st);
  }

  // ---- How both are stranded ----

  // Any file but an empty one can come to that, once it is reached: its first
  // block is spoilt, and each request for it lost.
  lemma CanStrand(c: Config, n: nat)
    requires Passable(c, n) && Takes(c, n) && 0 < Size(c, n) < TWO_32
    ensures exists st :: Reachable(c, st) && InTakenFile(c, st) && Stranded(st) && st.s.file == n
  {
    AllIsClosed(c);
    var end := StrandedIn(c, All(c), n);
  }

  lemma StrandedIn(c: Config, reach: iset<State>, n: nat) returns (end: State)
    requires ZmodemRuns.Closed(c, reach) && Passable(c, n) && Takes(c, n) && 0 < Size(c, n) < TWO_32
    ensures end in reach && InTakenFile(c, end) && Stranded(end) && end.s.file == n
  {
    ClosedIsSteady(c, reach);
    var r := FilesArrive(c, reach, n);
    FileBegins(c, reach, n, r, []);
    var st := State(Sender(Sending, n, 0), Holder(c, n, r, FileData, 0), [], []);
    var sent, noise := SendsTheRest(c, reach, st);
    assert [] + noise + [EndOf(c, n)] == noise + [EndOf(c, n)];
    end := FirstIsSpoilt(c, reach, sent);
    if noise != [] {
      assert end.forth == noise[1..] + [EndOf(c, n)];
      end := EndIsAskedAbout(c, reach, end, noise[1..]);
    }
  }

  lemma FirstIsSpoilt(c: Config, reach: iset<State>, st: State) returns (end: State)
    requires ZmodemRuns.Closed(c, reach) && st in reach && st.s.phase == Ending && st.s.file < |c.files|
    requires st.forth != [] && st.back == [] && st.r.mode == FileData
    ensures end in reach && end == State(st.s, st.r.(mode := InFile), st.forth[1..], [])
  {
    ClosedIsSteady(c, reach);
    var r, again := st.r.(mode := InFile), st.r.Say(ZRPOS, |st.r.data|);
    var spoilt := st.(forth := st.forth[0 := Garbled]);
    Stepped(c, reach, st, Garble(0), spoilt);
    Hears(c, reach, spoilt, Bad(false), 1, Reaction(r, [again]));
    assert [] + [again] == [again] && spoilt.forth[1..] == st.forth[1..];
    end := State(st.s, r, st.forth[1..], []);
    Stepped(c, reach, end.(back := [again]), Lose(0), end);
  }

  lemma EndIsAskedAbout(c: Config, reach: iset<State>, st: State, noise: seq<Item>) returns (end: State)
    requires ZmodemRuns.Closed(c, reach) && st in reach && st.s.phase == Ending && st.s.file < |c.files| && st.back == []
    requires st.r.mode == InFile && |st.r.data| != Size(c, st.s.file) % TWO_32
    requires NoHeaders(noise) && st.forth == noise + [EndOf(c, st.s.file)]
    ensures end in reach && end == State(st.s, st.r, [], [])
  {
    ClosedIsSteady(c, reach);
    var again := st.r.Say(ZRPOS, |st.r.data|);
    assert st.forth[..|noise|] == noise && st.forth[|noise| + 1..] == [] && [] + [again] == [again];
    ReadNext(c, reach, st, |noise|, Reaction(st.r, [again]));
    end := State(st.s, st.r, [], []);
    Stepped(c, reach, end.(back := [again]), Lose(0), end);
  }

  // A request heard, in mid-stream or at the end, has the sender go back at
  // once: the next it says is that it starts again from there.
  lemma GoesBackAtOnce(c: Config, st: State)
    requires Reachable(c, st) && (st.s.phase == Checking || st.s.phase == Ending) && st.back != [] && st.back[0].kind == ZRPOS
    ensures exists end ::
      && Leads(c, st, [SenderListens(Heard(ZRPOS, st.back[0].pos), 1), SenderSpeaks], end)
      && end.forth == st.forth + [Header(ZDATA, st.back[0].pos, st.s.file, st.back[0].pos)]
  {
    ReachableKeeps(c, st);
    RequestIsForThisFile(c, st, 0);
    BackAtOnce(c, st);
  }

  lemma BackAtOnce(c: Config, st: State)
    requires (st.s.phase == Checking || st.s.phase == Ending) && st.s.file < |c.files|
    requires st.back != [] && st.back[0].kind == ZRPOS && st.back[0].pos <= Size(c, st.s.file) && st.back[0].pos < TWO_32
    ensures exists end ::
      && Leads(c, st, [SenderListens(Heard(ZRPOS, st.back[0].pos), 1), SenderSpeaks], end)
      && end.forth == st.forth + [Header(ZDATA, st.back[0].pos, st.s.file, st.back[0].pos)]
  {
    var hears := SenderListens(Heard(ZRPOS, st.back[0].pos), 1);
    var next := Do(c, st, hears);
    var end := Do(c, next, SenderSpeaks);
    assert [hears, SenderSpeaks][1..] == [SenderSpeaks] && [SenderSpeaks][1..] == [];
    assert Leads(c, end, [], end);
    assert Leads(c, next, [SenderSpeaks], end);
    assert st.forth + [] == st.forth;
  }

  // ---- With noise ----

  // Some run without garbling, loss or quitting.
  ghost predicate CanGetTo(c: Config, st: State, end: State) {
    exists actions :: Leads(c, st, actions, end) && forall i :: 0 <= i < |actions| ==> Harmless(actions[i])
  }

  // Any noise on the line brings back even those that are stranded: it makes
  // the receiver ask. So from every such state some run without garbling, loss
  // or quitting receives the file whole, and ends in success if the rest can be
  // passed.
  lemma CanRecover(c: Config, st: State)
    requires Reachable(c, st) && InTakenFile(c, st)
    ensures exists end ::
      CanGetTo(c, st, end) && HasArrived(c, st.s.file, end.r) && (RestPasses(c, st.s.file + 1) ==> BothSucceed(end))
  {
    ReachableIsWell(c, st);
    if Stranded(st) {
      NoiseHelps(c, st);
    } else {
      var end := Recovers(c, st);
      var actions :| LeadsFaithfully(c, st, actions, end);
      FaithfulIsHarmless(c, st, actions, end);
    }
  }

  lemma NoiseHelps(c: Config, st: State)
    requires Well(c, st) && InTakenFile(c, st) && Stranded(st)
    ensures exists end ::
      CanGetTo(c, st, end) && HasArrived(c, st.s.file, end.r) && (RestPasses(c, st.s.file + 1) ==> BothSucceed(end))
  {
    var noise := ReceiverHears(Bad(false), 0, false);
    var next := Asked(c, st, noise);
    StepKeeps(c, st, noise);
    StepKept(c, st, noise);
    var end := Recovers(c, next);
    var actions :| LeadsFaithfully(c, next, actions, end);
    FaithfulIsHarmless(c, next, actions, end);
    HarmlessFirst(c, st, noise, actions, end);
  }

  lemma HarmlessFirst(c: Config, st: State, first: Action, actions: seq<Action>, end: State)
    requires Enabled(c, st, first) && Harmless(first) && Leads(c, Do(c, st, first), actions, end)
    requires forall i :: 0 <= i < |actions| ==> Harmless(actions[i])
    ensures CanGetTo(c, st, end)
  {
    var all := [first] + actions;
    assert all[1..] == actions;
    assert Leads(c, st, all, end);
    assert forall i :: 0 <= i < |all| ==> Harmless(all[i]);
  }

  lemma Asked(c: Config, st: State, noise: Action) returns (next: State)
    requires Well(c, st) && InTakenFile(c, st) && Stranded(st) && noise == ReceiverHears(Bad(false), 0, false)
    ensures Enabled(c, st, noise) && next == Do(c, st, noise) && InTakenFile(c, next) && !Stranded(next)
    ensures next.s == st.s
  {
    InOrPastFile(c, st);
    next := Do(c, st, noise);
    assert next.back[|st.back|].kind == ZRPOS;
  }
}
