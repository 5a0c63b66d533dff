// What the receiver does keeps the two ends in step.
module ZmodemReceiverSteps {
  import opened Bytes
  import opened ZmodemFileInfo
  import opened ZmodemInvariant
  import opened ZmodemMachine
  import opened ZmodemSenderSteps

  // The receiver uses up items and moves on, without yet answering.
  lemma ReadingKeeps(c: Config, st: State, r: Receiver, used: nat, residue: bool)
    requires Linked(c, st) && used <= |st.forth|
    requires st.r.Running() && (r.Running() ==> r.Stage() >= st.r.Stage())
    requires Wants(r) == Anything || (!residue && Wants(r) == ContAt(Wants(st.r), st.forth, used))
    requires
      || (r.resolved == st.r.resolved && (Busy(r) ==> Busy(st.r)))
      || (r.resolved == st.r.resolved + 1 && Busy(st.r) && !Busy(r))
    requires r.mode == Finished ==> r.resolved == |c.files|
    ensures Linked(c, st.(r := r, forth := Rest(st.forth, used, residue)))
  {
    var after := st.(r := r, forth := Rest(st.forth, used, residue));
    ChainShrinks(Wants(st.r), st.forth, used, residue, Wants(r));
    RestIsHonest(c, st, used, residue);
    forall k | 0 <= k < |after.forth| ensures OfferIsCurrent(after, k) {
      RestOfOffers(st, after, used, residue, k);
    }
    forall k | 0 <= k < |after.back| ensures Sound(c, after, after.back[k]) {
      assert Sound(c, st, st.back[k]);
    }
  }

  lemma RestIsHonest(c: Config, st: State, used: nat, residue: bool)
    requires Honest(c, st.forth, st.s.file) && used <= |st.forth|
    ensures Honest(c, Rest(st.forth, used, residue), st.s.file)
    ensures Busy(st.r) && InStep(c, st) ==>
              forall k :: 0 <= k < |Rest(st.forth, used, residue)| ==> IsFile(Rest(st.forth, used, residue)[k], st.s.file)
  {
    var rest := Rest(st.forth, used, residue);
    var more := if residue then 1 else 0;
    forall k | more <= k < |rest| ensures rest[k] == st.forth[k - more + used] {
    }
  }

  lemma RestOfOffers(st: State, after: State, used: nat, residue: bool, k: nat)
    requires used <= |st.forth| && after.forth == Rest(st.forth, used, residue) && k < |after.forth|
    requires forall j :: 0 <= j < |st.forth| ==> OfferIsCurrent(st, j)
    requires after.s == st.s
    requires Busy(st.r) || (after.r.resolved == st.r.resolved && !Busy(after.r))
    ensures OfferIsCurrent(after, k)
  {
    var more := if residue then 1 else 0;
    if k >= more {
      assert OfferIsCurrent(st, k - more + used);
      assert after.forth[k] == st.forth[k - more + used];
      forall j | k < j < |after.forth| ensures after.forth[j] == st.forth[j - more + used] {
      }
    }
  }

  // Taking up an offer: from here on everything is about the file offered.
  lemma OfferTakenKeeps(c: Config, st: State, used: nat)
    requires Linked(c, st) && st.r.mode == Between && 0 < used <= |st.forth| && OffersFile(st.forth[used - 1])
    ensures Linked(c, st.(r := st.r.(mode := Information), forth := Rest(st.forth, used, false)))
  {
    var after := st.(r := st.r.(mode := Information), forth := Rest(st.forth, used, false));
    assert OfferIsCurrent(st, used - 1) && Truthful(c, st.forth[used - 1]);
    ChainShrinks(Wants(st.r), st.forth, used, false, Wants(after.r));
    RestIsHonest(c, st, used, false);
    forall k | 0 <= k < |after.forth| ensures IsFile(after.forth[k], st.s.file) && !OffersFile(after.forth[k]) {
      assert after.forth[k] == st.forth[used + k];
    }
    forall k | 0 <= k < |after.back| ensures Sound(c, after, after.back[k]) {
      assert Sound(c, st, st.back[k]);
    }
  }

  // Replies so far, next to the receiver's stage.
  predicate AtMost(back: seq<Reply>, stage: nat) {
    forall k :: 0 <= k < |back| ==> back[k].stage <= stage && (back[k].kind == ZSKIP ==> back[k].stage < stage)
  }

  lemma RepliesSoFar(c: Config, st: State)
    requires Replied(c, st) && st.r.Running()
    ensures AtMost(st.back, st.r.Stage())
  {
    forall k | 0 <= k < |st.back|
      ensures st.back[k].stage <= st.r.Stage() && (st.back[k].kind == ZSKIP ==> st.back[k].stage < st.r.Stage())
    {
      assert Sound(c, st, st.back[k]);
      Halves(st.back[k].stage);
    }
  }

  lemma ReplyingKeeps(c: Config, st: State, reply: Reply)
    requires Linked(c, st) && Sound(c, st, reply) && AtMost(st.back, reply.stage)
    ensures Linked(c, st.(back := st.back + [reply]))
  {
    var after := st.(back := st.back + [reply]);
    forall k | 0 <= k < |after.back| ensures Sound(c, after, after.back[k]) {
      if k < |st.back| {
        assert Sound(c, st, st.back[k]);
      }
    }
    OfferStaysCurrent(st, after);
  }

  // What the receiver says of itself in passing.
  lemma SayingKeeps(c: Config, st: State, kind: Kind, position: nat)
    requires Linked(c, st) && st.r.Running()
    requires kind in {ZRINIT, ZNAK, ZACK, ZRPOS}
    requires kind == ZRINIT ==> !st.r.HoldsFile()
    requires kind == ZRPOS ==> st.r.HoldsFile() && st.r.resolved < |c.files| && position <= Size(c, st.r.resolved)
    ensures Linked(c, st.(back := st.back + [st.r.Say(kind, position)]))
  {
    RepliesSoFar(c, st);
    StageIsAbove(c, st);
    ReplyingKeeps(c, st, st.r.Say(kind, position));
  }

  lemma StageIsAbove(c: Config, st: State)
    requires InStep(c, st) && st.r.Running()
    ensures Floor(st.s) <= st.r.Stage() && st.r.Stage() / 2 == st.r.resolved
    ensures st.r.HoldsFile() <==> st.r.Stage() % 2 == 1
    ensures st.r.HoldsFile() ==> st.r.resolved == st.s.file < |c.files|
  {
  }

  // The state once the receiver has reacted to what it read.
  function Reacted(st: State, reaction: Reaction, used: nat, residue: bool): State
    requires used <= |st.forth|
  {
    st.(r := reaction.receiver, forth := Rest(st.forth, used, residue), back := st.back + reaction.replies)
  }

  lemma ReadAndSayKeeps(c: Config, st: State, r: Receiver, used: nat, residue: bool, kind: Kind, position: nat)
    requires Linked(c, st) && used <= |st.forth|
    requires st.r.Running() && r.Running() && r.Stage() >= st.r.Stage()
    requires Wants(r) == Anything || (!residue && Wants(r) == ContAt(Wants(st.r), st.forth, used))
    requires
      || (r.resolved == st.r.resolved && (Busy(r) ==> Busy(st.r)))
      || (r.resolved == st.r.resolved + 1 && Busy(st.r) && !Busy(r))
    requires kind in {ZRINIT, ZNAK, ZACK, ZRPOS}
    requires kind == ZRINIT ==> !r.HoldsFile()
    requires kind == ZRPOS ==> r.HoldsFile() && r.resolved < |c.files| && position <= Size(c, r.resolved)
    ensures Linked(c, Reacted(st, Reaction(r, [r.Say(kind, position)]), used, residue))
  {
    ReadingKeeps(c, st, r, used, residue);
    SayingKeeps(c, st.(r := r, forth := Rest(st.forth, used, residue)), kind, position);
  }

  lemma ReadOnlyKeeps(c: Config, st: State, r: Receiver, used: nat, residue: bool)
    requires Linked(c, st) && used <= |st.forth|
    requires st.r.Running() && (r.Running() ==> r.Stage() >= st.r.Stage())
    requires Wants(r) == Anything || (!residue && Wants(r) == ContAt(Wants(st.r), st.forth, used))
    requires
      || (r.resolved == st.r.resolved && (Busy(r) ==> Busy(st.r)))
      || (r.resolved == st.r.resolved + 1 && Busy(st.r) && !Busy(r))
    requires r.mode != Finished
    ensures Linked(c, Reacted(st, Reaction(r, []), used, residue))
  {
    ReadingKeeps(c, st, r, used, residue);
    assert st.back + [] == st.back;
  }

  predicate CanHear(c: Config, st: State, e: Event, used: nat, residue: bool) {
    ReceiverCanHear(st.r, st.forth, e, used, residue, c.limit)
  }

  lemma BetweenKeeps(c: Config, st: State, e: Event, used: nat, residue: bool)
    requires Linked(c, st) && st.r.mode == Between && CanHear(c, st, e, used, residue)
    ensures Linked(c, Reacted(st, HearBetween(st.r, e), used, residue))
  {
    if e.Heard? && e.kind == ZFILE {
      OfferTakenKeeps(c, st, used);
      assert st.back + [] == st.back;
    } else if e.Heard? && e.kind == ZFIN {
      ClosingKeeps(c, st, used);
    } else {
      StillBetweenKeeps(c, st, HearBetween(st.r, e), used, residue);
    }
  }

  lemma StillBetweenKeeps(c: Config, st: State, reaction: Reaction, used: nat, residue: bool)
    requires Linked(c, st) && st.r.mode == Between && used <= |st.forth|
    requires reaction.receiver == st.r.(mode := reaction.receiver.mode, asks := reaction.receiver.asks)
    requires reaction.receiver.mode in {Between, Attention, Failed}
    requires reaction.replies != [] ==>
               reaction.receiver.mode == Between
               && (reaction.replies == [st.r.Say(ZRINIT, 0)] || reaction.replies == [st.r.Say(ZNAK, 0)])
    ensures Linked(c, Reacted(st, reaction, used, residue))
  {
    var r := reaction.receiver;
    if reaction.replies == [] {
      ReadOnlyKeeps(c, st, r, used, residue);
    } else {
      var kind := reaction.replies[0].kind;
      assert reaction == Reaction(r, [r.Say(kind, 0)]);
      ReadAndSayKeeps(c, st, r, used, residue, kind, 0);
    }
  }

  lemma ClosingKeeps(c: Config, st: State, used: nat)
    requires Linked(c, st) && st.r.mode == Between && 0 < used <= |st.forth|
    requires st.forth[used - 1].Header? && st.forth[used - 1].kind == ZFIN
    ensures Linked(c, Reacted(st, Reaction(st.r.(mode := Finished), [st.r.Say(ZFIN, 0)]), used, false))
  {
    assert Truthful(c, st.forth[used - 1]) && NotAhead(st.forth[used - 1], st.s.file);
    var r := st.r.(mode := Finished);
    ReadingKeeps(c, st, r, used, false);
    RepliesSoFar(c, st);
    StageIsAbove(c, st);
    ReplyingKeeps(c, st.(r := r, forth := Rest(st.forth, used, false)), st.r.Say(ZFIN, 0));
  }

  lemma InformationKeeps(c: Config, st: State, e: Event, used: nat, residue: bool)
    requires Linked(c, st) && st.r.mode == Information && CanHear(c, st, e, used, residue)
    ensures Linked(c, Reacted(st, HearInformation(c, st.r, e), used, residue))
  {
    if e.Whole? {
      WholeInformationKeeps(c, st, c.parse(e.content), used, residue);
    } else {
      NoInformationKeeps(c, st, used, residue);
    }
  }

  lemma NoInformationKeeps(c: Config, st: State, used: nat, residue: bool)
    requires Linked(c, st) && st.r.mode == Information && used <= |st.forth|
    ensures Linked(c, Reacted(st, Reaction(st.r.(mode := Between), [st.r.Say(ZNAK, 0)]), used, residue))
  {
    var r := st.r.(mode := Between);
    assert st.r.Say(ZNAK, 0) == r.Say(ZNAK, 0);
    ReadAndSayKeeps(c, st, r, used, residue, ZNAK, 0);
  }

  lemma WholeInformationKeeps(c: Config, st: State, parsed: Parsed, used: nat, residue: bool)
    requires Linked(c, st) && st.r.mode == Information && used <= |st.forth|
    ensures Linked(c, Reacted(st, Decide(st.r, parsed, c.limit), used, residue))
  {
    Decides(st.r, parsed, c.limit);
    if parsed.Unparsed? || parsed.size > c.limit {
      RefusingKeeps(c, st, used, residue);
    } else {
      TakingKeeps(c, st, Decide(st.r, parsed, c.limit).receiver, used, residue);
    }
  }

  lemma Decides(r: Receiver, parsed: Parsed, limit: nat)
    requires r.mode == Information
    ensures
      var decided := Decide(r, parsed, limit);
      if parsed.Unparsed? || parsed.size > limit then
        decided == Reaction(Refused(r), [Reply(ZSKIP, 0, 2 * r.resolved + 1, 0)])
      else
        && decided == Reaction(decided.receiver, [decided.receiver.Say(ZRPOS, 0)])
        && decided.receiver.mode == InFile && decided.receiver.resolved == r.resolved
  {
  }

  lemma TakingKeeps(c: Config, st: State, r: Receiver, used: nat, residue: bool)
    requires Linked(c, st) && st.r.mode == Information && used <= |st.forth|
    requires r.mode == InFile && r.resolved == st.r.resolved
    ensures Linked(c, Reacted(st, Reaction(r, [r.Say(ZRPOS, 0)]), used, residue))
  {
    ReadAndSayKeeps(c, st, r, used, residue, ZRPOS, 0);
  }

  function Refused(r: Receiver): Receiver {
    r.(mode := Between, resolved := r.resolved + 1)
  }

  lemma RefusingKeeps(c: Config, st: State, used: nat, residue: bool)
    requires Linked(c, st) && st.r.mode == Information && used <= |st.forth|
    ensures
      Linked(c, Reacted(st, Reaction(Refused(st.r), [Reply(ZSKIP, 0, 2 * st.r.resolved + 1, 0)]), used, residue))
  {
    var r := Refused(st.r);
    ReadingKeeps(c, st, r, used, residue);
    RepliesSoFar(c, st);
    ReplyingKeeps(c, st.(r := r, forth := Rest(st.forth, used, residue)), Reply(ZSKIP, 0, 2 * st.r.resolved + 1, 0));
  }

  // A place heard of inside a file is in that file.
  lemma PlaceIsInThisFile(c: Config, st: State, k: nat)
    requires Linked(c, st) && st.r.HoldsFile() && k < |st.forth| && st.forth[k].Header?
    ensures st.forth[k].file == st.r.resolved < |c.files|
    ensures st.forth[k].kind == ZDATA ==> After(st.forth[k]) == At(st.r.resolved, st.forth[k].pos)
    ensures st.forth[k].kind == ZEOF ==> st.forth[k].pos == Size(c, st.r.resolved) % TWO_32
  {
    assert Truthful(c, st.forth[k]) && IsFile(st.forth[k], st.s.file);
  }

  predicate DataFits(c: Config, r: Receiver) {
    r.resolved < |c.files| && |r.data| <= Size(c, r.resolved)
  }

  lemma InFileKeeps(c: Config, st: State, e: Event, used: nat, residue: bool)
    requires Linked(c, st) && DataFits(c, st.r) && st.r.mode == InFile && CanHear(c, st, e, used, residue)
    ensures Linked(c, Reacted(st, HearInFile(st.r, e), used, residue))
  {
    var reaction := HearInFile(st.r, e);
    var r := reaction.receiver;
    if reaction.replies == [] {
      assert reaction == Reaction(r, []);
      if e.Heard? {
        PlaceIsInThisFile(c, st, used - 1);
      }
      ReadOnlyKeeps(c, st, r, used, residue);
    } else if reaction.replies[0].kind == ZRPOS {
      assert reaction == Reaction(r, [r.Say(ZRPOS, |r.data|)]);
      AskingKeeps(c, st, r, used, residue);
    } else {
      assert reaction == Reaction(r, [r.Say(ZRINIT, 0)]);
      PushingKeeps(c, st, r, used, residue);
    }
  }

  // Inside a file, the receiver asks for it from where it stands.
  lemma AskingKeeps(c: Config, st: State, r: Receiver, used: nat, residue: bool)
    requires Linked(c, st) && DataFits(c, st.r) && st.r.HoldsFile() && used <= |st.forth| && r == st.r.(mode := InFile)
    ensures Linked(c, Reacted(st, Reaction(r, [r.Say(ZRPOS, |r.data|)]), used, residue))
  {
    ReadAndSayKeeps(c, st, r, used, residue, ZRPOS, |r.data|);
  }

  lemma PushingKeeps(c: Config, st: State, r: Receiver, used: nat, residue: bool)
    requires Linked(c, st) && st.r.mode == InFile && used <= |st.forth|
    requires r.mode == Between && r.resolved == st.r.resolved + 1
    ensures Linked(c, Reacted(st, Reaction(r, [r.Say(ZRINIT, 0)]), used, residue))
  {
    ReadAndSayKeeps(c, st, r, used, residue, ZRINIT, 0);
  }

  // Data heard inside a file is the file's next block.
  lemma DataIsNext(c: Config, st: State, e: Event, used: nat, residue: bool)
    requires Linked(c, st) && st.r.mode == FileData && CanHear(c, st, e, used, residue) && e.Whole?
    ensures st.forth[0].Packet? && After(st.forth[0]) == At(st.r.resolved, |st.r.data| + |e.content|)
    ensures
      && st.r.resolved < |c.files| && |st.r.data| <= Size(c, st.r.resolved)
      && |e.content| == Min(BLOCK_SIZE, Size(c, st.r.resolved) - |st.r.data|)
      && e.content == c.files[st.r.resolved].data[|st.r.data|..|st.r.data| + |e.content|]
  {
    assert Fits(ContAt(Wants(st.r), st.forth, 0), st.forth[0]) && Truthful(c, st.forth[0]);
  }

  lemma FileDataKeeps(c: Config, st: State, e: Event, used: nat, residue: bool)
    requires Linked(c, st) && DataFits(c, st.r) && st.r.mode == FileData && CanHear(c, st, e, used, residue)
    ensures Linked(c, Reacted(st, HearFileData(st.r, e), used, residue))
  {
    var reaction := HearFileData(st.r, e);
    var r := reaction.receiver;
    if e.Whole? {
      DataIsNext(c, st, e, used, residue);
      DataTakenKeeps(c, st, r, used, residue, reaction.replies);
    } else if reaction.replies == [] {
      assert reaction == Reaction(r, []);
      ReadOnlyKeeps(c, st, r, used, residue);
    } else {
      assert reaction == Reaction(r, [r.Say(ZRPOS, |r.data|)]);
      AskingKeeps(c, st, r, used, residue);
    }
  }

  lemma DataTakenKeeps(c: Config, st: State, r: Receiver, used: nat, residue: bool, replies: seq<Reply>)
    requires Linked(c, st) && st.r.mode == FileData && used == 1 <= |st.forth| && !residue
    requires r.resolved == st.r.resolved && (r.mode == FileData || r.mode == InFile)
    requires After(st.forth[0]) == At(r.resolved, |r.data|)
    requires replies == [] || replies == [r.Say(ZACK, |r.data|)]
    ensures Linked(c, Reacted(st, Reaction(r, replies), used, residue))
  {
    if replies == [] {
      ReadOnlyKeeps(c, st, r, used, residue);
    } else {
      ReadAndSayKeeps(c, st, r, used, residue, ZACK, |r.data|);
    }
  }
}
