// What should arrive, and how sender, receiver and the queues between them
// stand to each other all the while.
module ZmodemInvariant {
  import opened Bytes
  import opened ZmodemFileInfo
  import opened ZmodemMachine

  // ---- What should arrive ----

  predicate Accepts(c: Config, i: nat)
    requires i < |c.files|
  {
    var parsed := c.parse(c.offers[i]);
    parsed.Parsed? && parsed.size <= c.limit
  }

  predicate IsNamed(c: Config, i: nat, name: seq<Byte>, mtime: nat)
    requires i < |c.files|
  {
    var parsed := c.parse(c.offers[i]);
    parsed.Parsed? && name == parsed.name && mtime == parsed.mtime
  }

  // The accepted ones among the first `count` files, by number.
  function AcceptedUpTo(c: Config, count: nat): (accepted: seq<nat>)
    requires count <= |c.files|
    ensures forall k :: 0 <= k < |accepted| ==> accepted[k] < count && Accepts(c, accepted[k])
  {
    if count == 0 then []
    else if Accepts(c, count - 1) then AcceptedUpTo(c, count - 1) + [count - 1]
    else AcceptedUpTo(c, count - 1)
  }

  // A position fits 32 bits, or the file's end can never look like a place
  // on the way to it.
  predicate EndIsClear(size: nat) {
    size < TWO_32 || size % BLOCK_SIZE != 0
  }

  predicate IsCopy(c: Config, i: nat, copy: File)
    requires i < |c.files|
  {
    && copy.mtime >= 0 && Accepts(c, i) && IsNamed(c, i, copy.name, copy.mtime)
    && |copy.data| <= c.limit
    && copy.data == c.files[i].data[..Size(c, i) % TWO_32]
    && (EndIsClear(|c.files[i].data|) ==> copy.data == c.files[i].data)
  }

  predicate AreCopies(c: Config, accepted: seq<nat>, received: seq<File>)
    requires forall k :: 0 <= k < |accepted| ==> accepted[k] < |c.files|
  {
    && |received| == |accepted|
    && forall k :: 0 <= k < |received| ==> IsCopy(c, accepted[k], received[k])
  }

  // ---- What the next subpacket may be ----

  // After an item, a data subpacket can follow directly, or what was garbled
  // hides what could.
  datatype Cont = Anything | At(file: nat, position: nat) | OfferOf(file: nat) | Nothing

  function After(item: Item): Cont {
    match item
    case Header(kind, _, file, at) => if kind == ZDATA then At(file, at) else if kind == ZFILE then OfferOf(file) else Nothing
    case Packet(content, _, file, at) => At(file, at + |content|)
    case Offer(_, _) => Nothing
    case Garbled => Anything
  }

  predicate Fits(cont: Cont, item: Item) {
    match item
    case Packet(_, _, file, at) => cont == Anything || cont == At(file, at)
    case Offer(_, file) => cont == Anything || cont == OfferOf(file)
    case _ => true
  }

  // What the receiver, as it stands, could take next as data.
  function Wants(r: Receiver): Cont {
    if r.mode == FileData then At(r.resolved, |r.data|)
    else if r.mode == Information then OfferOf(r.resolved)
    else Anything
  }

  function ContAt(first: Cont, forth: seq<Item>, k: nat): Cont
    requires k <= |forth|
  {
    if k == 0 then first else After(forth[k - 1])
  }

  predicate Chained(first: Cont, forth: seq<Item>) {
    forall k :: 0 <= k < |forth| ==> Fits(ContAt(first, forth, k), forth[k])
  }

  lemma ChainGrows(first: Cont, forth: seq<Item>, item: Item)
    requires Chained(first, forth) && Fits(ContAt(first, forth, |forth|), item)
    ensures Chained(first, forth + [item])
  {
    forall k | 0 <= k < |forth + [item]| ensures Fits(ContAt(first, forth + [item], k), (forth + [item])[k]) {
      assert ContAt(first, forth + [item], k) == ContAt(first, forth, k);
      if k < |forth| {
        assert Fits(ContAt(first, forth, k), forth[k]);
      }
    }
  }

  // What reading leaves is chained to what the reader then wants.
  lemma ChainShrinks(first: Cont, forth: seq<Item>, used: nat, residue: bool, next: Cont)
    requires Chained(first, forth) && used <= |forth|
    requires next == Anything || (!residue && next == ContAt(first, forth, used))
    ensures Chained(next, Rest(forth, used, residue))
    ensures var rest := Rest(forth, used, residue);
            var end := ContAt(next, rest, |rest|);
            end == Anything || end == ContAt(first, forth, |forth|)
  {
    var rest := Rest(forth, used, residue);
    var more := if residue then 1 else 0;
    forall k | 0 <= k < |rest| ensures Fits(ContAt(next, rest, k), rest[k]) {
      if k >= more {
        var j := k - more + used;
        assert rest[k] == forth[j] && Fits(ContAt(first, forth, j), forth[j]);
        if k > more {
          assert rest[k - 1] == forth[j - 1];
        }
      }
    }
    if |rest| > more {
      assert rest[|rest| - 1] == forth[|forth| - 1];
    }
  }

  lemma ChainGarbled(first: Cont, forth: seq<Item>, g: nat)
    requires Chained(first, forth) && g < |forth|
    ensures Chained(first, forth[g := Garbled])
  {
    var garbled := forth[g := Garbled];
    forall k | 0 <= k < |garbled| ensures Fits(ContAt(first, garbled, k), garbled[k]) {
      assert Fits(ContAt(first, forth, k), forth[k]);
    }
  }

  // ---- The invariant ----

  function Size(c: Config, i: nat): nat
    requires i < |c.files|
  {
    |c.files[i].data|
  }

  predicate IsFile(item: Item, file: nat) {
    match item
    case Header(_, _, f, _) => f == file
    case Packet(_, _, f, _) => f == file
    case Offer(_, f) => f == file
    case Garbled => true
  }

  predicate OffersFile(item: Item) {
    item.Header? && item.kind == ZFILE
  }

  // What an item says is so, whatever the receiver makes of it.
  predicate Truthful(c: Config, item: Item) {
    match item
    case Header(kind, pos, file, at) =>
      && (kind == ZDATA ==> file < |c.files| && pos == at <= Size(c, file))
      && (kind == ZEOF ==> file < |c.files| && pos == Size(c, file) % TWO_32)
      && (kind == ZFIN ==> file == |c.files|)
      && (kind == ZFILE ==> file < |c.files|)
    case Packet(content, end, file, at) =>
      && file < |c.files| && at <= Size(c, file)
      && |content| == Min(BLOCK_SIZE, Size(c, file) - at)
      && content == c.files[file].data[at..at + |content|]
    case Offer(content, file) => file < |c.files| && content == c.offers[file]
    case Garbled => true
  }

  predicate NotAhead(item: Item, file: nat) {
    match item
    case Header(_, _, f, _) => f <= file
    case Packet(_, _, f, _) => f <= file
    case Offer(_, f) => f <= file
    case Garbled => true
  }

  predicate Honest(c: Config, forth: seq<Item>, file: nat) {
    forall k :: 0 <= k < |forth| ==> Truthful(c, forth[k]) && NotAhead(forth[k], file)
  }

  // A file has been offered and the receiver's answer to it is not yet known.
  predicate Offered(s: Sender) {
    s.phase == Offering || s.InData() || s.phase == GaveUp || s.phase == Overread
  }

  // The receiver has taken up the offer of the sender's file.
  predicate Busy(r: Receiver) {
    r.mode == Information || r.HoldsFile()
  }

  // An offer on its way is the sender's last, and nothing of an earlier file
  // comes after it.
  predicate OfferIsCurrent(st: State, k: nat)
    requires k < |st.forth|
  {
    OffersFile(st.forth[k]) ==>
      && st.forth[k].file == st.s.file == st.r.resolved && !Busy(st.r) && Offered(st.s)
      && forall j :: k < j < |st.forth| ==> IsFile(st.forth[j], st.s.file) && !OffersFile(st.forth[j])
  }

  predicate InStep(c: Config, st: State) {
    && st.s.file <= |c.files|
    && HasFile(c, st.s)
    && (st.s.phase == Starting ==> st.s.file == 0)
    && (st.s.phase == Closing || st.s.phase == Finishing || st.s.phase == Done ==> st.s.file == |c.files|)
    && st.s.file <= st.r.resolved <= st.s.file + 1
    && (Busy(st.r) ==> st.r.resolved == st.s.file)
    && (Busy(st.r) || st.r.resolved == st.s.file + 1 ==> Offered(st.s) && st.s.file < |c.files|)
    && (Busy(st.r) ==> forall k :: 0 <= k < |st.forth| ==> IsFile(st.forth[k], st.s.file))
    && (st.r.mode == Finished ==> st.r.resolved == |c.files|)
    && (st.r.Running() ==> Floor(st.s) <= st.r.Stage())
    && forall k :: 0 <= k < |st.forth| ==> OfferIsCurrent(st, k)
  }

  // Blocks end on block boundaries or with the file.
  predicate OnBoundary(c: Config, i: nat, length: nat)
    requires i < |c.files|
  {
    length <= Size(c, i) && (length % BLOCK_SIZE == 0 || length == Size(c, i))
  }

  predicate Holding(c: Config, r: Receiver) {
    && r.resolved <= |c.files|
    && AreCopies(c, AcceptedUpTo(c, r.resolved), r.received)
    && (r.HoldsFile() ==>
          && r.resolved < |c.files| && Accepts(c, r.resolved)
          && IsNamed(c, r.resolved, r.name, r.mtime) && |r.data| <= c.limit
          && r.data <= c.files[r.resolved].data
          && OnBoundary(c, r.resolved, |r.data|))
  }

  predicate Placed(c: Config, st: State) {
    && Chained(Wants(st.r), st.forth)
    && (st.s.phase == Placing || st.s.phase == Sending || st.s.phase == Checking ==>
          st.s.file < |c.files| && st.s.position <= Size(c, st.s.file))
    && (st.s.phase == Placing ==> st.s.position < TWO_32)
    && (st.s.phase == Sending || st.s.phase == Checking ==>
          var end := ContAt(Wants(st.r), st.forth, |st.forth|);
          end == Anything || end == At(st.s.file, st.s.position))
    && st.s.phase != Overread
  }

  // The least stage a reply still to be read can be from.
  function Floor(s: Sender): nat {
    if s.InData() then 2 * s.file + 1 else if s.phase == GaveUp then 0 else 2 * s.file
  }

  predicate Sound(c: Config, st: State, reply: Reply) {
    && Floor(st.s) <= reply.stage
    && reply.stage / 2 <= st.r.resolved
    && (reply.stage % 2 == 1 ==> reply.stage / 2 <= st.s.file && reply.stage / 2 < |c.files|)
    && (st.r.Running() ==> reply.stage <= st.r.Stage())
    && reply.pos == reply.at % TWO_32
    && (reply.kind == ZRPOS ==> reply.stage % 2 == 1 && reply.at <= Size(c, reply.stage / 2))
    && (reply.kind == ZRINIT ==> reply.stage % 2 == 0)
    && (reply.kind == ZSKIP ==> reply.stage % 2 == 1 && reply.stage / 2 < st.r.resolved)
  }

  predicate InOrder(back: seq<Reply>) {
    forall j, k :: 0 <= j < k < |back| ==>
      back[j].stage <= back[k].stage && (back[j].kind == ZSKIP ==> back[j].stage < back[k].stage)
  }

  predicate Replied(c: Config, st: State) {
    && InOrder(st.back)
    && forall k :: 0 <= k < |st.back| ==> Sound(c, st, st.back[k])
  }

  // How the two ends and the queues between them stand to each other.
  predicate Linked(c: Config, st: State) {
    Honest(c, st.forth, st.s.file) && InStep(c, st) && Placed(c, st) && Replied(c, st)
  }

  predicate Invariant(c: Config, st: State) {
    Linked(c, st) && Holding(c, st.r)
  }

  lemma StartsWell(c: Config)
    ensures Invariant(c, Start())
  {
    assert AcceptedUpTo(c, 0) == [];
  }
}
