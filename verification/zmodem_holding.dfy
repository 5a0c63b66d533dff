// What the receiver holds is what was sent.
module ZmodemHolding {
  import opened Bytes
  import opened ZmodemFileInfo
  import opened ZmodemInvariant
  import opened ZmodemMachine
  import opened ZmodemReceiverSteps
  import opened ZmodemSenderSteps

  lemma InformationIsOffer(c: Config, st: State, e: Event, used: nat, residue: bool)
    requires Linked(c, st) && st.r.mode == Information && CanHear(c, st, e, used, residue) && e.Whole?
    ensures st.r.resolved < |c.files| && e.content == c.offers[st.r.resolved]
  {
    assert Fits(ContAt(Wants(st.r), st.forth, 0), st.forth[0]) && Truthful(c, st.forth[0]);
  }

  lemma InformationHolds(c: Config, st: State, e: Event, used: nat, residue: bool)
    requires Invariant(c, st) && st.r.mode == Information && CanHear(c, st, e, used, residue)
    ensures Holding(c, HearInformation(c, st.r, e).receiver)
  {
    if e.Whole? {
      InformationIsOffer(c, st, e, used, residue);
      DecisionHolds(c, st.r, c.parse(e.content));
    }
  }

  lemma DecisionHolds(c: Config, r: Receiver, parsed: Parsed)
    requires Holding(c, r) && r.mode == Information && r.resolved < |c.files|
    requires parsed == c.parse(c.offers[r.resolved])
    ensures Holding(c, Decide(r, parsed, c.limit).receiver)
  {
    assert !Accepts(c, r.resolved) ==> AcceptedUpTo(c, r.resolved + 1) == AcceptedUpTo(c, r.resolved);
  }

  // Bytes the length of what the end header says are all there are, unless
  // the end is not clear.
  lemma LengthTells(c: Config, i: nat, length: nat)
    requires i < |c.files| && OnBoundary(c, i, length) && length == Size(c, i) % TWO_32 && EndIsClear(Size(c, i))
    ensures length == Size(c, i)
  {
    if Size(c, i) >= TWO_32 {
      WrapKeepsOffset(Size(c, i));
    }
  }

  lemma WrapKeepsOffset(size: nat)
    ensures (size % TWO_32) % BLOCK_SIZE == size % BLOCK_SIZE
  {
    var whole := size / TWO_32;
    assert size == TWO_32 * whole + size % TWO_32;
    assert TWO_32 * whole == BLOCK_SIZE * (0x40_0000 * whole);
    Multiple(0x40_0000 * whole, size % TWO_32);
  }

  lemma Multiple(blocks: int, rest: int)
    ensures (BLOCK_SIZE * blocks + rest) % BLOCK_SIZE == rest % BLOCK_SIZE
  {
  }

  lemma CopyMade(c: Config, r: Receiver)
    requires Holding(c, r) && r.HoldsFile() && |r.data| == Size(c, r.resolved) % TWO_32
    ensures IsCopy(c, r.resolved, File(r.name, r.data, r.mtime))
  {
    if EndIsClear(Size(c, r.resolved)) {
      LengthTells(c, r.resolved, |r.data|);
    }
  }

  lemma InFileHolds(c: Config, st: State, e: Event, used: nat, residue: bool)
    requires Invariant(c, st) && st.r.mode == InFile && CanHear(c, st, e, used, residue)
    ensures Holding(c, HearInFile(st.r, e).receiver)
  {
    InFileDecides(st.r, e);
    if EndsFile(st.r, e) {
      PlaceIsInThisFile(c, st, used - 1);
      PushHolds(c, st.r);
    } else {
      ModeHolds(c, st.r, HearInFile(st.r, e).receiver.mode);
    }
  }

  predicate EndsFile(r: Receiver, e: Event) {
    e.Heard? && e.kind == ZEOF && e.pos == |r.data|
  }

  lemma InFileDecides(r: Receiver, e: Event)
    requires r.mode == InFile
    ensures var next := HearInFile(r, e).receiver; next == if EndsFile(r, e) then Pushed(r) else r.(mode := next.mode)
  {
  }

  lemma ModeHolds(c: Config, r: Receiver, mode: Mode)
    requires Holding(c, r) && r.HoldsFile()
    ensures Holding(c, r.(mode := mode))
  {
  }

  lemma PushHolds(c: Config, r: Receiver)
    requires Holding(c, r) && r.mode == InFile && |r.data| == Size(c, r.resolved) % TWO_32
    ensures Holding(c, Pushed(r))
  {
    CopyMade(c, r);
    PushedCopies(c, r.resolved, r.received, File(r.name, r.data, r.mtime));
  }

  lemma PushedCopies(c: Config, count: nat, received: seq<File>, copy: File)
    requires count < |c.files| && AreCopies(c, AcceptedUpTo(c, count), received) && IsCopy(c, count, copy)
    ensures AreCopies(c, AcceptedUpTo(c, count + 1), received + [copy])
  {
    var before, after := AcceptedUpTo(c, count), AcceptedUpTo(c, count + 1);
    assert after == before + [count];
    forall k | 0 <= k < |received + [copy]| ensures IsCopy(c, after[k], (received + [copy])[k]) {
      if k < |received| {
        assert IsCopy(c, before[k], received[k]);
      }
    }
  }

  lemma FileDataHolds(c: Config, st: State, e: Event, used: nat, residue: bool)
    requires Invariant(c, st) && st.r.mode == FileData && CanHear(c, st, e, used, residue)
    ensures Holding(c, HearFileData(st.r, e).receiver)
  {
    if e.Whole? {
      DataIsNext(c, st, e, used, residue);
      GrowthHolds(c, st.r, e.content, HearFileData(st.r, e).receiver.mode);
    }
  }

  lemma GrowthHolds(c: Config, r: Receiver, content: seq<Byte>, mode: Mode)
    requires Holding(c, r) && r.HoldsFile() && |content| == Min(BLOCK_SIZE, Size(c, r.resolved) - |r.data|)
    requires content == c.files[r.resolved].data[|r.data|..|r.data| + |content|]
    requires content == [] || |r.data| + |content| <= c.limit
    requires mode == InFile || mode == FileData
    ensures Holding(c, r.(data := r.data + content, mode := mode))
  {
    var bytes := c.files[r.resolved].data;
    assert r.data + content == bytes[..|r.data| + |content|];
    NextBoundary(c, r.resolved, |r.data|, |content|);
  }

  lemma NextBoundary(c: Config, i: nat, length: nat, count: nat)
    requires i < |c.files| && OnBoundary(c, i, length) && count == Min(BLOCK_SIZE, Size(c, i) - length)
    ensures OnBoundary(c, i, length + count)
  {
  }

  lemma AttentionKeeps(c: Config, st: State, used: nat, residue: bool)
    requires Linked(c, st) && st.r.mode == Attention && used <= |st.forth|
    ensures Linked(c, Reacted(st, Reaction(st.r.(mode := Between), [st.r.Say(ZACK, 1)]), used, residue))
  {
    var r := st.r.(mode := Between);
    assert st.r.Say(ZACK, 1) == r.Say(ZACK, 1);
    ReadAndSayKeeps(c, st, r, used, residue, ZACK, 1);
  }

  lemma AgainKeeps(c: Config, st: State, used: nat, residue: bool)
    requires Linked(c, st) && DataFits(c, st.r) && st.r.mode == Again && used <= |st.forth|
    ensures Linked(c, Reacted(st, Reaction(st.r.(mode := InFile), [st.r.Say(ZRPOS, |st.r.data|)]), used, residue))
  {
    var r := st.r.(mode := InFile);
    assert st.r.Say(ZRPOS, |st.r.data|) == r.Say(ZRPOS, |r.data|);
    AskingKeeps(c, st, r, used, residue);
  }

  lemma HearingKeepsLinked(c: Config, st: State, e: Event, used: nat, residue: bool)
    requires Invariant(c, st) && CanHear(c, st, e, used, residue)
    ensures Linked(c, Reacted(st, Hear(c, st.r, e), used, residue))
  {
    match st.r.mode
    case Between => BetweenKeeps(c, st, e, used, residue);
    case Attention => AttentionKeeps(c, st, used, residue);
    case Information => InformationKeeps(c, st, e, used, residue);
    case InFile => InFileKeeps(c, st, e, used, residue);
    case Again => AgainKeeps(c, st, used, residue);
    case FileData => FileDataKeeps(c, st, e, used, residue);
  }

  lemma HearingKeepsHolding(c: Config, st: State, e: Event, used: nat, residue: bool)
    requires Invariant(c, st) && CanHear(c, st, e, used, residue)
    ensures Holding(c, Hear(c, st.r, e).receiver)
  {
    match st.r.mode
    case Information => InformationHolds(c, st, e, used, residue);
    case InFile => InFileHolds(c, st, e, used, residue);
    case FileData => FileDataHolds(c, st, e, used, residue);
    case _ =>
  }

  lemma HearingKeeps(c: Config, st: State, e: Event, used: nat, residue: bool)
    requires Invariant(c, st) && CanHear(c, st, e, used, residue)
    ensures Invariant(c, Do(c, st, ReceiverHears(e, used, residue)))
  {
    HearingKeepsLinked(c, st, e, used, residue);
    HearingKeepsHolding(c, st, e, used, residue);
  }

  lemma ReceiverQuittingKeeps(c: Config, st: State)
    requires Invariant(c, st) && st.r.Running()
    ensures Invariant(c, st.(r := st.r.(mode := Failed)))
  {
    NothingUsed(st.forth);
    ReadingKeeps(c, st, st.r.(mode := Failed), 0, false);
  }
}
