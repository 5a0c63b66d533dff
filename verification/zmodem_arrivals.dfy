// Runs in which each end makes of the line what is on it, so that nothing goes
// wrong any more. In such runs what is sent arrives.
module ZmodemArrivals {
  import opened Bytes
  import opened ZmodemFileInfo
  import opened ZmodemInvariant
  import opened ZmodemMachine

  // A file offered in information the receiver takes, and one it refuses.
  predicate Takes(c: Config, n: nat) {
    n < |c.files| && |c.offers[n]| <= INFO_LIMIT && Accepts(c, n) && Size(c, n) <= c.limit
  }

  predicate Refuses(c: Config, n: nat) {
    n < |c.files| && |c.offers[n]| <= INFO_LIMIT && !Accepts(c, n)
  }

  // ---- Faithful runs ----

  predicate NoHeaders(items: seq<Item>) {
    forall k :: 0 <= k < |items| ==> !items[k].Header?
  }

  // What keeps a read from coming out whole: something garbled, or a header in
  // the place of data.
  predicate Spoils(r: Receiver, item: Item) {
    item.Garbled? || (r.AwaitsData() && item.Header?)
  }

  // A read that makes of the line what is on it: no header is passed over for
  // a later one, a bad read has its reason, and waiting in vain means that
  // nothing came.
  predicate ReadsWhatIsThere(r: Receiver, forth: seq<Item>, e: Event, used: nat)
    requires used <= |forth|
  {
    match e
    case Heard(_, _) => used > 0 && NoHeaders(forth[..used - 1])
    case Whole(_, _) => true
    case Bad(late) =>
      && !late && used > 0 && NoHeaders(forth[..used - 1]) && Spoils(r, forth[used - 1])
      && (r.AwaitsData() ==> used == 1)
    case Waited(late) => !late && used == |forth| && NoHeaders(forth) && (r.AwaitsData() ==> forth == [])
    case _ => false
  }

  // Replies are heard one by one. While it is sending data the sender only
  // looks for one, which may not be there yet.
  predicate ListensToWhatIsThere(s: Sender, back: seq<Reply>, e: Event, used: nat) {
    || (e.Heard? && used == 1)
    || (e == Waited(false) && used == 0 && (back == [] || s.phase == Checking))
  }

  predicate Faithful(st: State, a: Action) {
    match a
    case SenderSpeaks => true
    case SenderListens(e, used) => ListensToWhatIsThere(st.s, st.back, e, used)
    case ReceiverHears(e, used, residue) => !residue && used <= |st.forth| && ReadsWhatIsThere(st.r, st.forth, e, used)
    case _ => false
  }

  predicate LeadsFaithfully(c: Config, st: State, actions: seq<Action>, end: State)
    decreases |actions|
  {
    if actions == [] then st == end
    else Enabled(c, st, actions[0]) && Faithful(st, actions[0]) && LeadsFaithfully(c, Do(c, st, actions[0]), actions[1..], end)
  }

  lemma {:induction false} LeadsFaithfullyOn(c: Config, st: State, actions: seq<Action>, middle: State, last: Action)
    requires LeadsFaithfully(c, st, actions, middle) && Enabled(c, middle, last) && Faithful(middle, last)
    ensures LeadsFaithfully(c, st, actions + [last], Do(c, middle, last))
    decreases |actions|
  {
    if actions == [] {
      assert [last][1..] == [];
      assert LeadsFaithfully(c, Do(c, st, last), [], Do(c, middle, last));
      assert actions + [last] == [last];
    } else {
      assert (actions + [last])[1..] == actions[1..] + [last];
      LeadsFaithfullyOn(c, Do(c, st, actions[0]), actions[1..], middle, last);
    }
  }

  // A set of states that faithful steps do not leave.
  ghost predicate Steady(c: Config, reach: iset<State>) {
    forall st, a {:trigger Do(c, st, a)} :: st in reach && Enabled(c, st, a) && Faithful(st, a) ==> Do(c, st, a) in reach
  }

  ghost predicate CanReach(c: Config, start: State, st: State) {
    exists actions :: LeadsFaithfully(c, start, actions, st)
  }

  ghost function From(c: Config, start: State): iset<State> {
    iset st | CanReach(c, start, st)
  }

  lemma FromIsSteady(c: Config, start: State)
    ensures start in From(c, start) && Steady(c, From(c, start))
  {
    assert LeadsFaithfully(c, start, [], start);
    forall st, a | st in From(c, start) && Enabled(c, st, a) && Faithful(st, a) ensures Do(c, st, a) in From(c, start) {
      var actions :| LeadsFaithfully(c, start, actions, st);
      LeadsFaithfullyOn(c, start, actions, st, a);
    }
  }

  lemma Reached(c: Config, reach: iset<State>, st: State, a: Action, next: State)
    requires Steady(c, reach) && st in reach && Enabled(c, st, a) && Faithful(st, a) && next == Do(c, st, a)
    ensures next in reach
  {
  }

  // The receiver hears the one header there is.
  lemma OneHeard(c: Config, reach: iset<State>, st: State, reaction: Reaction)
    requires Steady(c, reach)
    requires st in reach && HasFile(c, st.s) && st.r.AwaitsHeader() && |st.forth| == 1 && st.forth[0].Header?
    requires reaction == Hear(c, st.r, Heard(st.forth[0].kind, st.forth[0].pos))
    ensures State(st.s, reaction.receiver, [], st.back + reaction.replies) in reach
  {
    Reached(c, reach, st, ReceiverHears(Heard(st.forth[0].kind, st.forth[0].pos), 1, false),
            State(st.s, reaction.receiver, [], st.back + reaction.replies));
  }

  // The receiver reads what is there, and does what `reaction` says.
  lemma Hears(c: Config, reach: iset<State>, st: State, e: Event, used: nat, reaction: Reaction)
    requires Steady(c, reach)
    requires st in reach && HasFile(c, st.s) && ReceiverCanHear(st.r, st.forth, e, used, false, c.limit)
    requires ReadsWhatIsThere(st.r, st.forth, e, used) && reaction == Hear(c, st.r, e)
    ensures State(st.s, reaction.receiver, st.forth[used..], st.back + reaction.replies) in reach
  {
    assert Rest(st.forth, used, false) == st.forth[used..];
    Reached(c, reach, st, ReceiverHears(e, used, false), State(st.s, reaction.receiver, st.forth[used..], st.back + reaction.replies));
  }

  // The sender hears the next reply, and says nothing.
  lemma ReplyHeard(c: Config, reach: iset<State>, st: State, after: Sender)
    requires Steady(c, reach) && st in reach && HasFile(c, st.s) && st.s.Listens() && st.back != []
    requires Listen(c, st.s, Heard(st.back[0].kind, st.back[0].pos)) == Answer(after, [])
    ensures State(after, st.r, st.forth, st.back[1..]) in reach
  {
    assert st.forth + [] == st.forth;
    Reached(c, reach, st, SenderListens(Heard(st.back[0].kind, st.back[0].pos), 1), State(after, st.r, st.forth, st.back[1..]));
  }

  // ---- Replies that come too late ----

  predicate IsIdle(reply: Reply) {
    reply.kind == ZRINIT || reply.kind == ZNAK || reply.kind == ZACK
  }

  predicate AllIdle(back: seq<Reply>) {
    forall k :: 0 <= k < |back| ==> IsIdle(back[k])
  }

  // Such replies mean nothing to a sender that has offered a file, or has
  // closed.
  lemma {:induction false} IdleAreIgnored(c: Config, reach: iset<State>, st: State)
    requires Steady(c, reach) && st in reach && HasFile(c, st.s) && AllIdle(st.back)
    requires st.s.phase == Offering || st.s.phase == Finishing
    ensures st.(back := []) in reach
    decreases |st.back|
  {
    if st.back != [] {
      assert IsIdle(st.back[0]);
      ReplyHeard(c, reach, st, st.s);
      var next := st.(back := st.back[1..]);
      IdleAreIgnored(c, reach, next);
      assert next.(back := []) == st.(back := []);
    } else {
      assert st.(back := []) == st;
    }
  }

  // ---- A file offered ----

  // Between files, before file `n`.
  predicate Idle(r: Receiver, n: nat) {
    r.mode == Between && r.resolved == n
  }

  // The receiver holding the first `length` bytes of file `n`, otherwise as
  // it was.
  function Holder(c: Config, n: nat, r: Receiver, mode: Mode, length: nat): Receiver
    requires Takes(c, n) && length <= Size(c, n)
  {
    var parsed := c.parse(c.offers[n]);
    r.(mode := mode, name := parsed.name, mtime := parsed.mtime, data := c.files[n].data[..length])
  }

  // A file is offered.
  lemma FileOffered(c: Config, reach: iset<State>, n: nat, r: Receiver, back: seq<Reply>)
    requires Steady(c, reach) && AllIdle(back)
    requires n < |c.files| && |c.offers[n]| <= INFO_LIMIT && Idle(r, n)
    requires State(Sender(Opening, n, 0), r, [], back) in reach
    ensures State(Sender(Offering, n, 0), r.(mode := Information), [Offer(c.offers[n], n)], []) in reach
  {
    var offer, info := Header(ZFILE, 0, n, 0), Offer(c.offers[n], n);
    var s1 := State(Sender(Opening, n, 0), r, [], back);
    var s2 := State(Sender(Offering, n, 0), r, [offer, info], back);
    var s3 := State(s2.s, r, s2.forth, []);
    Reached(c, reach, s1, SenderSpeaks, s2);
    IdleAreIgnored(c, reach, s2);
    assert s3 == s2.(back := []) && s3.forth[1..] == [info] && [] + [] == s3.back;
    Hears(c, reach, s3, Heard(ZFILE, 0), 1, Reaction(r.(mode := Information), []));
  }

  // What it holds is decided on.
  lemma OfferHeard(c: Config, reach: iset<State>, n: nat, r: Receiver, reaction: Reaction)
    requires Steady(c, reach)
    requires n < |c.files| && |c.offers[n]| <= INFO_LIMIT && r.mode == Information
    requires State(Sender(Offering, n, 0), r, [Offer(c.offers[n], n)], []) in reach
    requires reaction == Decide(r, c.parse(c.offers[n]), c.limit)
    ensures State(Sender(Offering, n, 0), reaction.receiver, [], reaction.replies) in reach
  {
    var s3 := State(Sender(Offering, n, 0), r, [Offer(c.offers[n], n)], []);
    assert s3.forth[1..] == [] && [] + reaction.replies == reaction.replies;
    Hears(c, reach, s3, Whole(c.offers[n], W), 1, reaction);
  }

  // It is taken.
  lemma OfferTaken(c: Config, reach: iset<State>, n: nat, r: Receiver, back: seq<Reply>)
    requires Steady(c, reach) && AllIdle(back)
    requires Takes(c, n) && Idle(r, n) && State(Sender(Opening, n, 0), r, [], back) in reach
    ensures State(Sender(Offering, n, 0), Holder(c, n, r, InFile, 0), [], [Reply(ZRPOS, 0, 2 * n + 1, 0)]) in reach
  {
    FileOffered(c, reach, n, r, back);
    assert c.files[n].data[..0] == [];
    OfferHeard(c, reach, n, r.(mode := Information), Reaction(Holder(c, n, r, InFile, 0), [Reply(ZRPOS, 0, 2 * n + 1, 0)]));
  }

  // Or refused.
  lemma OfferRefused(c: Config, reach: iset<State>, n: nat, r: Receiver, back: seq<Reply>)
    requires Steady(c, reach) && AllIdle(back)
    requires Refuses(c, n) && Idle(r, n) && State(Sender(Opening, n, 0), r, [], back) in reach
    ensures State(Turn(c, n + 1), r.(resolved := n + 1), [], []) in reach
  {
    var skip := Reply(ZSKIP, 0, 2 * n + 1, 0);
    FileOffered(c, reach, n, r, back);
    OfferHeard(c, reach, n, r.(mode := Information), Reaction(r.(resolved := n + 1), [skip]));
    ReplyHeard(c, reach, State(Sender(Offering, n, 0), r.(resolved := n + 1), [], [skip]), Turn(c, n + 1));
    assert [skip][1..] == [];
  }

  // ---- Its data ----

  // Asked for at the place where the receiver is, it is sent from there.
  lemma DataBegins(c: Config, reach: iset<State>, n: nat, r: Receiver, position: nat, back: seq<Reply>)
    requires Steady(c, reach) && Takes(c, n) && position <= Size(c, n) && position < TWO_32
    requires State(Sender(Placing, n, position), Holder(c, n, r, InFile, position), [], back) in reach
    ensures State(Sender(Sending, n, position), Holder(c, n, r, FileData, position), [], back) in reach
  {
    var asked, data := Holder(c, n, r, InFile, position), Header(ZDATA, position, n, position);
    var s5 := State(Sender(Placing, n, position), asked, [], back);
    var s6 := State(Sender(Sending, n, position), asked, [data], back);
    Reached(c, reach, s5, SenderSpeaks, s6);
    OneHeard(c, reach, s6, Reaction(Holder(c, n, r, FileData, position), []));
    assert back + [] == back;
  }

  // A block sent and received.
  lemma BlockArrives(c: Config, reach: iset<State>, n: nat, r: Receiver, position: nat, back: seq<Reply>)
    requires Steady(c, reach)
    requires Takes(c, n) && position + BLOCK_SIZE < Size(c, n)
    requires State(Sender(Sending, n, position), Holder(c, n, r, FileData, position), [], back) in reach
    ensures State(Sender(Sending, n, position + BLOCK_SIZE), Holder(c, n, r, FileData, position + BLOCK_SIZE), [], back) in reach
  {
    var bytes, next := c.files[n].data, position + BLOCK_SIZE;
    var block := Packet(bytes[position..next], G, n, position);
    var s0 := State(Sender(Sending, n, position), Holder(c, n, r, FileData, position), [], back);
    var s1 := State(Sender(Checking, n, next), s0.r, [block], back);
    var s2 := State(s1.s, Holder(c, n, r, FileData, next), [], back);
    Reached(c, reach, s0, SenderSpeaks, s1);
    assert bytes[..position] + bytes[position..next] == bytes[..next];
    assert [block][1..] == [] && back + [] == back;
    Hears(c, reach, s1, Whole(block.content, G), 1, Reaction(s2.r, []));
    Reached(c, reach, s2, SenderListens(Waited(false), 0), State(Sender(Sending, n, next), s2.r, [], back));
  }

  lemma {:induction false} BlocksArrive(c: Config, reach: iset<State>, n: nat, r: Receiver, blocks: nat)
    requires Steady(c, reach)
    requires Takes(c, n) && (blocks == 0 || BLOCK_SIZE * blocks < Size(c, n))
    requires State(Sender(Sending, n, 0), Holder(c, n, r, FileData, 0), [], []) in reach
    ensures State(Sender(Sending, n, BLOCK_SIZE * blocks), Holder(c, n, r, FileData, BLOCK_SIZE * blocks), [], []) in reach
  {
    if blocks > 0 {
      BlocksArrive(c, reach, n, r, blocks - 1);
      BlockArrives(c, reach, n, r, BLOCK_SIZE * (blocks - 1), []);
    }
  }

  function EndOf(c: Config, n: nat): Item
    requires n < |c.files|
  {
    Header(ZEOF, Size(c, n) % TWO_32, n, Size(c, n))
  }

  lemma LastBlockArrives(c: Config, reach: iset<State>, n: nat, r: Receiver, position: nat, back: seq<Reply>)
    requires Steady(c, reach)
    requires Takes(c, n) && position <= Size(c, n) <= position + BLOCK_SIZE
    requires State(Sender(Sending, n, position), Holder(c, n, r, FileData, position), [], back) in reach
    ensures State(Sender(Ending, n, Size(c, n)), Holder(c, n, r, InFile, Size(c, n)), [EndOf(c, n)], back) in reach
  {
    var bytes, size := c.files[n].data, Size(c, n);
    var block := Packet(bytes[position..size], E, n, position);
    var s0 := State(Sender(Sending, n, position), Holder(c, n, r, FileData, position), [], back);
    var s1 := State(Sender(AtEnd, n, size), s0.r, [block], back);
    var s2 := State(s1.s, Holder(c, n, r, InFile, size), [], back);
    Reached(c, reach, s0, SenderSpeaks, s1);
    assert bytes[..position] + bytes[position..size] == bytes[..size];
    assert [block][1..] == [] && back + [] == back;
    Hears(c, reach, s1, Whole(block.content, E), 1, Reaction(s2.r, []));
    Reached(c, reach, s2, SenderSpeaks, State(Sender(Ending, n, size), s2.r, [EndOf(c, n)], back));
  }

  // The sender in a file's data, past saying where it starts, sends the rest and
  // the file's end, whatever the receiver does.
  predicate PastPlace(c: Config, s: Sender) {
    && s.file < |c.files|
    && (((s.phase == Sending || s.phase == Checking) && s.position <= Size(c, s.file)) || s.phase == AtEnd)
  }

  lemma {:induction false} SendsTheRest(c: Config, reach: iset<State>, st: State) returns (end: State, noise: seq<Item>)
    requires Steady(c, reach) && st in reach && PastPlace(c, st.s)
    ensures end in reach && end.s.phase == Ending && end.s.file == st.s.file && end.r == st.r && end.back == st.back
    ensures NoHeaders(noise) && end.forth == st.forth + noise + [EndOf(c, st.s.file)]
    decreases if st.s.phase == AtEnd then 0 else 1, Size(c, st.s.file) - st.s.position, if st.s.phase == Checking then 1 else 0
  {
    if st.s.phase == AtEnd {
      noise := [];
      end := State(st.s.(phase := Ending), st.r, st.forth + [EndOf(c, st.s.file)], st.back);
      assert st.forth + [] == st.forth;
      Reached(c, reach, st, SenderSpeaks, end);
    } else if st.s.phase == Checking {
      var next := st.(s := st.s.(phase := Sending));
      assert st.forth + [] == st.forth;
      Reached(c, reach, st, SenderListens(Waited(false), 0), next);
      end, noise := SendsTheRest(c, reach, next);
    } else {
      var said := SpeakBlock(st.s, c.files[st.s.file].data);
      var next := State(said.sender, st.r, st.forth + said.items, st.back);
      Reached(c, reach, st, SenderSpeaks, next);
      end, noise := SendsTheRest(c, reach, next);
      assert st.forth + said.items + noise == st.forth + (said.items + noise);
      noise := said.items + noise;
    }
  }

  // The rest of the file from a position, and its end.
  lemma {:induction false} RestArrives(c: Config, reach: iset<State>, n: nat, r: Receiver, position: nat, back: seq<Reply>)
    requires Steady(c, reach) && Takes(c, n) && position <= Size(c, n)
    requires State(Sender(Sending, n, position), Holder(c, n, r, FileData, position), [], back) in reach
    ensures State(Sender(Ending, n, Size(c, n)), Holder(c, n, r, InFile, Size(c, n)), [EndOf(c, n)], back) in reach
    decreases Size(c, n) - position
  {
    if position + BLOCK_SIZE < Size(c, n) {
      BlockArrives(c, reach, n, r, position, back);
      RestArrives(c, reach, n, r, position + BLOCK_SIZE, back);
    } else {
      LastBlockArrives(c, reach, n, r, position, back);
    }
  }

  // The first `length` bytes of file `n`, as they are received.
  function CopyOf(c: Config, n: nat, length: nat): File
    requires Takes(c, n) && length <= Size(c, n)
  {
    var parsed := c.parse(c.offers[n]);
    File(parsed.name, c.files[n].data[..length], parsed.mtime)
  }

  function Received(c: Config, n: nat, r: Receiver, length: nat): Receiver
    requires Takes(c, n) && length <= Size(c, n)
  {
    Holder(c, n, r, Between, length).(received := r.received + [CopyOf(c, n, length)], resolved := n + 1)
  }

  lemma EndHeard(c: Config, n: nat, r: Receiver, length: nat)
    requires Takes(c, n) && length <= Size(c, n) && r.resolved == n
    ensures Hear(c, Holder(c, n, r, InFile, length), Heard(ZEOF, length))
         == Reaction(Received(c, n, r, length), [Reply(ZRINIT, 0, 2 * (n + 1), 0)])
  {
  }

  lemma EndIsHeard(c: Config, reach: iset<State>, n: nat, r: Receiver, back: seq<Reply>)
    requires Steady(c, reach)
    requires Takes(c, n) && Size(c, n) < TWO_32 && r.resolved == n
    requires State(Sender(Ending, n, Size(c, n)), Holder(c, n, r, InFile, Size(c, n)), [EndOf(c, n)], back) in reach
    ensures State(Sender(Ending, n, Size(c, n)), Received(c, n, r, Size(c, n)), [], back + [Reply(ZRINIT, 0, 2 * (n + 1), 0)]) in reach
  {
    var size := Size(c, n);
    EndHeard(c, n, r, size);
    OneHeard(c, reach, State(Sender(Ending, n, size), Holder(c, n, r, InFile, size), [EndOf(c, n)], back),
             Reaction(Received(c, n, r, size), [Reply(ZRINIT, 0, 2 * (n + 1), 0)]));
  }

  lemma FileBegins(c: Config, reach: iset<State>, n: nat, r: Receiver, back: seq<Reply>)
    requires Steady(c, reach) && AllIdle(back)
    requires Takes(c, n) && Idle(r, n) && State(Sender(Opening, n, 0), r, [], back) in reach
    ensures State(Sender(Sending, n, 0), Holder(c, n, r, FileData, 0), [], []) in reach
  {
    var asked := Reply(ZRPOS, 0, 2 * n + 1, 0);
    OfferTaken(c, reach, n, r, back);
    ReplyHeard(c, reach, State(Sender(Offering, n, 0), Holder(c, n, r, InFile, 0), [], [asked]), Sender(Placing, n, 0));
    assert [asked][1..] == [];
    DataBegins(c, reach, n, r, 0, []);
  }

  lemma FileArrives(c: Config, reach: iset<State>, n: nat, r: Receiver, back: seq<Reply>)
    requires Steady(c, reach) && AllIdle(back)
    requires Takes(c, n) && Size(c, n) < TWO_32 && Idle(r, n)
    requires State(Sender(Opening, n, 0), r, [], back) in reach
    ensures State(Turn(c, n + 1), Received(c, n, r, Size(c, n)), [], []) in reach
  {
    var size, ready := Size(c, n), Reply(ZRINIT, 0, 2 * (n + 1), 0);
    FileBegins(c, reach, n, r, back);
    assert [ready][1..] == [] && [] + [ready] == [ready];
    RestArrives(c, reach, n, r, 0, []);
    EndIsHeard(c, reach, n, r, []);
    ReplyHeard(c, reach, State(Sender(Ending, n, size), Received(c, n, r, size), [], [ready]), Turn(c, n + 1));
  }

  // ---- The batch ----

  // A file that does not keep those after it from being reached.
  predicate Passes(c: Config, n: nat) {
    Refuses(c, n) || (Takes(c, n) && Size(c, n) < TWO_32)
  }

  lemma NextArrives(c: Config, reach: iset<State>, n: nat, before: Receiver, back: seq<Reply>) returns (r: Receiver)
    requires Steady(c, reach) && AllIdle(back) && n < |c.files|
    requires Passes(c, n) && Idle(before, n) && State(Turn(c, n), before, [], back) in reach
    ensures Idle(r, n + 1) && State(Turn(c, n + 1), r, [], []) in reach
    ensures r.received == if Accepts(c, n) then before.received + [CopyOf(c, n, Size(c, n))] else before.received
  {
    if Accepts(c, n) {
      FileArrives(c, reach, n, before, back);
      r := Received(c, n, before, Size(c, n));
    } else {
      OfferRefused(c, reach, n, before, back);
      r := before.(resolved := n + 1);
    }
  }

  lemma Closes(c: Config, reach: iset<State>, r: Receiver, back: seq<Reply>)
    requires Steady(c, reach) && AllIdle(back)
    requires Idle(r, |c.files|) && State(Sender(Closing, |c.files|, 0), r, [], back) in reach
    ensures State(Sender(Done, |c.files|, 0), r.(mode := Finished), [], []) in reach
  {
    var n := |c.files|;
    var fin := Reply(ZFIN, 0, 2 * n, 0);
    var s2 := State(Sender(Closing, n, 0), r, [], back);
    var s3 := State(Sender(Finishing, n, 0), r, [Header(ZFIN, 0, n, 0)], back);
    Reached(c, reach, s2, SenderSpeaks, s3);
    IdleAreIgnored(c, reach, s3);
    assert [] + [fin] == [fin] && [fin][1..] == [];
    OneHeard(c, reach, s3.(back := []), Reaction(r.(mode := Finished), [fin]));
    ReplyHeard(c, reach, State(s3.s, r.(mode := Finished), [], [fin]), Sender(Done, n, 0));
  }

  // From between two files on, the rest of the batch.
  lemma {:induction false} RestOfBatchArrives(c: Config, reach: iset<State>, n: nat, r: Receiver, back: seq<Reply>)
    returns (end: State)
    requires Steady(c, reach) && AllIdle(back) && n <= |c.files| && forall i :: n <= i < |c.files| ==> Passes(c, i)
    requires Idle(r, n) && State(Turn(c, n), r, [], back) in reach
    ensures end in reach && end.s.phase == Done && end.r.mode == Finished
    decreases |c.files| - n
  {
    if n == |c.files| {
      Closes(c, reach, r, back);
      end := State(Sender(Done, n, 0), r.(mode := Finished), [], []);
    } else {
      var next := NextArrives(c, reach, n, r, back);
      end := RestOfBatchArrives(c, reach, n + 1, next, []);
    }
  }
}
