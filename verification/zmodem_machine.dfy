// The two ends of a ZMODEM transfer as state machines, and the line between
// them. Each end's state says where its program is waiting; `Hear` is what it
// does with the next thing it reads and `Speak` what it sends unasked.
//
// The line is two queues. Items from the sender can arrive garbled and can be
// skipped while a header is awaited, but are never silently deleted while data
// is awaited; replies can be lost at any time. Reading through a checksum, a
// garbled item is never taken for a whole one.
module ZmodemMachine {
  import opened Bytes
  import opened ZmodemFileInfo

  datatype Kind =
    | ZRQINIT | ZRINIT | ZSINIT | ZACK | ZFILE | ZSKIP | ZNAK | ZABORT | ZFIN
    | ZRPOS | ZDATA | ZEOF | ZFERR | ZCRC | ZCAN

  // How a data subpacket ends: the frame's last, more to come, and the same
  // two with an answer wanted.
  datatype End = E | G | Q | W

  const TWO_32: nat := 0x1_0000_0000
  const BLOCK_SIZE: nat := 1024
  const INFO_LIMIT: nat := 4096

  // What a read can end in.
  datatype Event =
    | Heard(kind: Kind, pos: nat)
    | Whole(content: seq<Byte>, end: End)
    | Bad(late: bool)
    | Waited(late: bool)
    | Closed
    | Cancelled
    | TooBig

  // The batch to send, the information sent for each file, how the receiver
  // reads it, and the receiver's limit on a file.
  datatype Transfer = Transfer(files: seq<File>, offers: seq<seq<Byte>>, parse: seq<Byte> -> Parsed, limit: nat)

  type Config = t: Transfer | |t.offers| == |t.files| witness Transfer([], [], ParseFileInformation, 0)

  // The transfer of `files`, each offered with what is left of the batch.
  function TransferOf(files: seq<File>, limit: nat): Config {
    var offers := seq(|files|, i requires 0 <= i < |files| => FileInformation(files, i));
    Transfer(files, offers, ParseFileInformation, limit)
  }

  // What goes from sender to receiver. `file` and `at` are bookkeeping: which
  // file, and where in it, the sender was; nothing read consults them.
  datatype Item =
    | Header(kind: Kind, pos: nat, file: nat, at: nat)
    | Packet(content: seq<Byte>, end: End, file: nat, at: nat)
    | Offer(content: seq<Byte>, file: nat)
    | Garbled

  // What goes back. `stage` and `at` are bookkeeping: how far the receiver
  // was in the batch, and how much of the file it held.
  datatype Reply = Reply(kind: Kind, pos: nat, stage: nat, at: nat)

  // ---- The receiver ----

  // What the receiver is waiting for: a header between files, the data after
  // ZSINIT, a file's information, a header inside a file, file data, or the
  // information of a repeated offer.
  datatype Mode = Between | Attention | Information | InFile | FileData | Again | Finished | Failed

  // `resolved` counts the files pushed or skipped so far.
  datatype Receiver = Receiver(
    mode: Mode, name: seq<Byte>, mtime: nat, data: seq<Byte>, received: seq<File>, asks: nat, resolved: nat)
  {
    predicate HoldsFile() {
      mode == InFile || mode == FileData || mode == Again
    }

    predicate AwaitsHeader() {
      mode == Between || mode == InFile
    }

    predicate AwaitsData() {
      mode == Attention || mode == Information || mode == FileData || mode == Again
    }

    predicate Running() {
      mode != Finished && mode != Failed
    }

    // Even between files, odd inside one.
    function Stage(): nat {
      2 * resolved + if HoldsFile() then 1 else 0
    }

    function Say(kind: Kind, position: nat): Reply {
      Reply(kind, position % TWO_32, Stage(), position)
    }

    function Ready(): Reply {
      Say(ZRINIT, 0)
    }
  }

  datatype Reaction = Reaction(receiver: Receiver, replies: seq<Reply>)

  function NewReceiver(): Receiver {
    Receiver(Between, [], 0, [], [], 0, 0)
  }

  // Whether a read that can end so is what the receiver is doing.
  predicate Suits(r: Receiver, e: Event) {
    match e
    case Heard(_, _) => r.AwaitsHeader()
    case Whole(_, _) => r.AwaitsData()
    case TooBig => r.AwaitsData()
    case _ => r.Running()
  }

  function Hear(c: Config, r: Receiver, e: Event): Reaction
    requires Suits(r, e)
  {
    match r.mode
    case Between => HearBetween(r, e)
    case Attention => Reaction(r.(mode := Between), [r.Say(ZACK, 1)])
    case Information => HearInformation(c, r, e)
    case InFile => HearInFile(r, e)
    case Again => Reaction(r.(mode := InFile), [r.Say(ZRPOS, |r.data|)])
    case FileData => HearFileData(r, e)
    case _ => assert false; Reaction(r, [])
  }

  function HearBetween(r: Receiver, e: Event): Reaction {
    match e
    case Heard(ZRQINIT, _) => Reaction(r, [r.Ready()])
    case Heard(ZSINIT, _) => Reaction(r.(mode := Attention), [])
    case Heard(ZFILE, _) => Reaction(r.(mode := Information), [])
    case Heard(ZFIN, _) => Reaction(r.(mode := Finished), [r.Say(ZFIN, 0)])
    case Heard(kind, _) => Reaction(if kind == ZCAN || kind == ZABORT then r.(mode := Failed) else r, [])
    case Bad(late) => if late then Reaction(r.(mode := Failed), []) else Reaction(r, [r.Say(ZNAK, 0)])
    case Waited(late) =>
      if late then Reaction(r.(mode := Failed), [])
      else Reaction(r.(asks := r.asks + 1), if (r.asks + 1) % 3 == 0 then [r.Ready()] else [])
    case _ => Reaction(r.(mode := Failed), [])
  }

  function HearInformation(c: Config, r: Receiver, e: Event): Reaction {
    match e
    case Whole(info, _) => Decide(r, c.parse(info), c.limit)
    case _ => Reaction(r.(mode := Between), [r.Say(ZNAK, 0)])
  }

  // Whether to take the file offered.
  function Decide(r: Receiver, parsed: Parsed, limit: nat): Reaction {
    if parsed.Unparsed? || parsed.size > limit then
      Reaction(r.(mode := Between, resolved := r.resolved + 1), [Reply(ZSKIP, 0, 2 * r.resolved + 1, 0)])
    else
      var started := r.(mode := InFile, name := parsed.name, mtime := parsed.mtime, data := []);
      Reaction(started, [started.Say(ZRPOS, 0)])
  }

  // The file at hand received.
  function Pushed(r: Receiver): Receiver {
    r.(mode := Between, received := r.received + [File(r.name, r.data, r.mtime)], resolved := r.resolved + 1)
  }

  function HearInFile(r: Receiver, e: Event): Reaction {
    match e
    case Heard(ZDATA, pos) =>
      if pos != |r.data| then Reaction(r, [r.Say(ZRPOS, |r.data|)]) else Reaction(r.(mode := FileData), [])
    case Heard(ZEOF, pos) =>
      if pos != |r.data| then Reaction(r, [r.Say(ZRPOS, |r.data|)])
      else
        Reaction(Pushed(r), [Pushed(r).Ready()])
    case Heard(ZFILE, _) => Reaction(r.(mode := Again), [])
    case Heard(kind, _) => Reaction(if kind == ZCAN || kind == ZABORT then r.(mode := Failed) else r, [])
    case Bad(_) => Reaction(r, [r.Say(ZRPOS, |r.data|)])
    case _ => Reaction(r.(mode := Failed), [])
  }

  function HearFileData(r: Receiver, e: Event): Reaction {
    match e
    case Whole(content, end) =>
      var grown := r.(data := r.data + content, mode := if end == E || end == W then InFile else FileData);
      Reaction(grown, if end == Q || end == W then [grown.Say(ZACK, |grown.data|)] else [])
    case Bad(_) => Reaction(r.(mode := InFile), [r.Say(ZRPOS, |r.data|)])
    case _ => Reaction(r.(mode := Failed), [])
  }

  // ---- The sender ----

  // Where the sender is: opening; about to offer file `file`; waiting for an
  // answer to the offer; about to send ZDATA at `position`, or a block from
  // it; looking for a request to go back; about to send ZEOF; waiting for an
  // answer to that; about to close; waiting for the close to be answered;
  // done; failed; or reading past the end of the file's bytes.
  datatype Phase =
    | Starting | Opening | Offering | Placing | Sending | Checking | AtEnd | Ending | Closing | Finishing
    | Done | GaveUp | Overread

  datatype Sender = Sender(phase: Phase, file: nat, position: nat) {
    predicate InData() {
      phase == Placing || phase == Sending || phase == Checking || phase == AtEnd || phase == Ending
    }

    predicate Listens() {
      phase == Starting || phase == Offering || phase == Checking || phase == Ending || phase == Finishing
    }

    predicate Speaks() {
      phase == Starting || phase == Opening || phase == Placing || phase == Sending || phase == AtEnd || phase == Closing
    }
  }

  function NewSender(): Sender {
    Sender(Starting, 0, 0)
  }

  // On to file `file`, or to closing after the last.
  function Turn(c: Config, file: nat): Sender {
    Sender(if file < |c.files| then Opening else Closing, file, 0)
  }

  function Min(a: nat, b: nat): nat {
    if a <= b then a else b
  }

  predicate Stops(kind: Kind) {
    kind == ZCAN || kind == ZABORT
  }

  // What the sender becomes on reading `e`, and what it answers at once.
  datatype Answer = Answer(sender: Sender, items: seq<Item>)

  function Listen(c: Config, s: Sender, e: Event): Answer
    requires s.Listens() && (s.InData() || s.phase == Offering ==> s.file < |c.files|)
  {
    match s.phase
    case Starting => Answer(ListenStarting(c, s, e), [])
    case Offering => ListenOffering(c, s, e)
    case Checking => Answer(ListenChecking(s, e), [])
    case Ending => Answer(ListenEnding(c, s, e), [])
    case _ => Answer(ListenFinishing(s, e), [])
  }

  function ListenStarting(c: Config, s: Sender, e: Event): Sender {
    match e
    case Heard(kind, _) =>
      if kind == ZRINIT then Turn(c, 0) else if Stops(kind) then s.(phase := GaveUp) else s
    case Bad(late) => if late then s.(phase := GaveUp) else s
    case Waited(late) => if late then s.(phase := GaveUp) else s
    case _ => s.(phase := GaveUp)
  }

  // What waiting for an answer makes of anything but a useful header.
  function Await(s: Sender, e: Event): Sender {
    match e
    case Heard(kind, _) => if Stops(kind) || kind == ZFERR then s.(phase := GaveUp) else s
    case Bad(late) => if late then s.(phase := GaveUp) else s
    case Waited(late) => if late then s.(phase := GaveUp) else s
    case _ => s.(phase := GaveUp)
  }

  function ListenOffering(c: Config, s: Sender, e: Event): Answer
    requires s.file < |c.files|
  {
    if e.Heard? && e.kind == ZSKIP then Answer(Turn(c, s.file + 1), [])
    else if e.Heard? && e.kind == ZRPOS then
      Answer(Sender(Placing, s.file, Min(e.pos, |c.files[s.file].data|)), [])
    else if e.Heard? && e.kind == ZCRC then Answer(s, [Header(ZCRC, 0, s.file, 0)])
    else Answer(Await(s, e), [])
  }

  // Nothing clamps the position asked for.
  function ListenChecking(s: Sender, e: Event): Sender {
    match e
    case Heard(kind, pos) =>
      if Stops(kind) then s.(phase := GaveUp)
      else if kind == ZRPOS then Sender(Placing, s.file, pos)
      else s.(phase := Sending)
    case Closed => s.(phase := GaveUp)
    case Cancelled => s.(phase := GaveUp)
    case _ => s.(phase := Sending)
  }

  function ListenEnding(c: Config, s: Sender, e: Event): Sender
    requires s.file < |c.files|
  {
    if e.Heard? && e.kind == ZRINIT then Turn(c, s.file + 1)
    else if e.Heard? && e.kind == ZRPOS then Sender(Placing, s.file, Min(e.pos, |c.files[s.file].data|))
    else Await(s, e)
  }

  function ListenFinishing(s: Sender, e: Event): Sender {
    match e
    case Heard(kind, _) => if kind == ZFIN then s.(phase := Done) else s
    case Bad(late) => if late then s.(phase := Done) else s
    case Waited(late) => if late then s.(phase := Done) else s
    case Closed => s.(phase := Done)
    case _ => s
  }

  // What the sender sends next, unasked.
  function Speak(c: Config, s: Sender): Answer
    requires s.Speaks() && (s.InData() || s.phase == Opening ==> s.file < |c.files|)
  {
    match s.phase
    case Starting => Answer(s, [Header(ZRQINIT, 0, 0, 0)])
    case Opening => Answer(s.(phase := Offering), [Header(ZFILE, 0, s.file, 0), Offer(c.offers[s.file], s.file)])
    case Placing => Answer(s.(phase := Sending), [Header(ZDATA, s.position % TWO_32, s.file, s.position)])
    case Sending => SpeakBlock(s, c.files[s.file].data)
    case AtEnd => Answer(s.(phase := Ending), [Header(ZEOF, |c.files[s.file].data| % TWO_32, s.file, |c.files[s.file].data|)])
    case _ => Answer(s.(phase := Finishing), [Header(ZFIN, 0, s.file, 0)])
  }

  function SpeakBlock(s: Sender, bytes: seq<Byte>): Answer {
    if s.position > |bytes| then Answer(s.(phase := Overread), [])
    else
      var end := s.position + Min(BLOCK_SIZE, |bytes| - s.position);
      var last := end >= |bytes|;
      Answer(Sender(if last then AtEnd else Checking, s.file, end),
             [Packet(bytes[s.position..end], if last then E else G, s.file, s.position)])
  }

  // ---- The two together ----

  datatype State = State(s: Sender, r: Receiver, forth: seq<Item>, back: seq<Reply>)

  function Start(): State {
    State(NewSender(), NewReceiver(), [], [NewReceiver().Ready()])
  }

  // One step of the whole. `used` is how many items a read used up; `residue`
  // says that what it used last is still there in part, as noise.
  datatype Action =
    | SenderSpeaks
    | SenderListens(e: Event, used: nat)
    | SenderQuits
    | ReceiverHears(e: Event, used: nat, residue: bool)
    | ReceiverQuits
    | Garble(k: nat)
    | Lose(k: nat)

  // A header heard is the last item used up, any before it having been
  // skipped.
  predicate SenderCanHear(back: seq<Reply>, e: Event, used: nat) {
    && used <= |back|
    && !e.Whole? && !e.TooBig?
    && (e.Heard? ==> used > 0 && back[used - 1].kind == e.kind && back[used - 1].pos == e.pos)
  }

  // Data heard is the very next item.
  predicate ReceiverCanHear(r: Receiver, forth: seq<Item>, e: Event, used: nat, residue: bool, limit: nat) {
    && Suits(r, e) && used <= |forth|
    && (e.Heard? ==>
          && used > 0 && !residue
          && forth[used - 1].Header? && forth[used - 1].kind == e.kind && forth[used - 1].pos == e.pos)
    && (e.Whole? ==> used == 1 && !residue && Carries(forth[0], e.content, e.end))
    && (e.Whole? && r.mode == FileData ==> e.content == [] || |r.data| + |e.content| <= limit)
    && (e.Whole? && r.mode != FileData ==> |e.content| <= INFO_LIMIT)
  }

  predicate Carries(item: Item, content: seq<Byte>, end: End) {
    match item
    case Packet(c, e, _, _) => c == content && e == end
    case Offer(c, _) => c == content && end == W
    case _ => false
  }

  predicate HasFile(c: Config, s: Sender) {
    s.InData() || s.phase == Opening || s.phase == Offering ==> s.file < |c.files|
  }

  predicate Enabled(c: Config, st: State, a: Action) {
    && HasFile(c, st.s)
    && match a
       case SenderSpeaks => st.s.Speaks()
       case SenderListens(e, used) => st.s.Listens() && SenderCanHear(st.back, e, used)
       case SenderQuits => st.s.Listens() || st.s.Speaks()
       case ReceiverHears(e, used, residue) => ReceiverCanHear(st.r, st.forth, e, used, residue, c.limit)
       case ReceiverQuits => st.r.Running()
       case Garble(k) => k < |st.forth|
       case Lose(k) => k < |st.back|
  }

  function Rest(forth: seq<Item>, used: nat, residue: bool): seq<Item>
    requires used <= |forth|
  {
    (if residue then [Garbled] else []) + forth[used..]
  }

  function Do(c: Config, st: State, a: Action): State
    requires Enabled(c, st, a)
  {
    match a
    case SenderSpeaks =>
      var said := Speak(c, st.s);
      st.(s := said.sender, forth := st.forth + said.items)
    case SenderListens(e, used) =>
      var said := Listen(c, st.s, e);
      st.(s := said.sender, forth := st.forth + said.items, back := st.back[used..])
    case SenderQuits => st.(s := st.s.(phase := GaveUp))
    case ReceiverHears(e, used, residue) =>
      var reaction := Hear(c, st.r, e);
      st.(r := reaction.receiver, forth := Rest(st.forth, used, residue), back := st.back + reaction.replies)
    case ReceiverQuits => st.(r := st.r.(mode := Failed))
    case Garble(k) => st.(forth := st.forth[k := Garbled])
    case Lose(k) => st.(back := st.back[..k] + st.back[k + 1..])
  }

  // `actions` lead from `st` to `end`.
  predicate Leads(c: Config, st: State, actions: seq<Action>, end: State)
    decreases |actions|
  {
    if actions == [] then st == end
    else Enabled(c, st, actions[0]) && Leads(c, Do(c, st, actions[0]), actions[1..], end)
  }

  ghost predicate Reachable(c: Config, st: State) {
    exists actions :: Leads(c, Start(), actions, st)
  }
}
