// What the line and the sender do keeps the two ends in step.
module ZmodemSenderSteps {
  import opened Bytes
  import opened ZmodemFileInfo
  import opened ZmodemInvariant
  import opened ZmodemMachine

  // ---- Steps of the line ----

  lemma GarblingKeeps(c: Config, st: State, g: nat)
    requires Linked(c, st) && g < |st.forth|
    ensures Linked(c, Do(c, st, Garble(g)))
  {
    ChainGarbled(Wants(st.r), st.forth, g);
    var after := Do(c, st, Garble(g));
    forall k | 0 <= k < |after.forth| ensures OfferIsCurrent(after, k) {
      assert OfferIsCurrent(st, k);
    }
  }

  lemma LosingKeeps(c: Config, st: State, g: nat)
    requires Linked(c, st) && g < |st.back|
    ensures Linked(c, Do(c, st, Lose(g)))
  {
    var after := Do(c, st, Lose(g));
    forall k | 0 <= k < |after.back| ensures Sound(c, after, after.back[k]) {
      assert Sound(c, st, st.back[if k < g then k else k + 1]);
    }
    OfferStaysCurrent(st, after);
  }

  // Whether offers are current does not depend on the replies.
  lemma OfferStaysCurrent(st: State, after: State)
    requires forall k :: 0 <= k < |st.forth| ==> OfferIsCurrent(st, k)
    requires after.forth == st.forth && after.s.file == st.s.file && after.r.resolved == st.r.resolved
    requires Busy(after.r) ==> Busy(st.r)
    requires Offered(st.s) ==> Offered(after.s)
    ensures forall k :: 0 <= k < |after.forth| ==> OfferIsCurrent(after, k)
  {
    forall k | 0 <= k < |after.forth| ensures OfferIsCurrent(after, k) {
      assert OfferIsCurrent(st, k);
    }
  }

  // ---- Steps of the sender ----

  lemma NothingUsed(forth: seq<Item>)
    ensures Rest(forth, 0, false) == forth
  {
  }

  // An item that says what is so and fits at the end of the queue.
  lemma ItemSent(c: Config, st: State, item: Item, s: Sender)
    requires Honest(c, st.forth, st.s.file) && Chained(Wants(st.r), st.forth)
    requires forall k :: 0 <= k < |st.forth| ==> OfferIsCurrent(st, k)
    requires s.file == st.s.file && (Offered(st.s) ==> Offered(s))
    requires Truthful(c, item) && IsFile(item, s.file) && item != Garbled
    requires Fits(ContAt(Wants(st.r), st.forth, |st.forth|), item)
    requires OffersFile(item) ==> !Offered(st.s) && Offered(s) && st.r.resolved == s.file && !Busy(st.r)
    ensures
      var after := st.(s := s, forth := st.forth + [item]);
      && Honest(c, after.forth, s.file) && Chained(Wants(st.r), after.forth)
      && forall k :: 0 <= k < |after.forth| ==> OfferIsCurrent(after, k)
  {
    var after := st.(s := s, forth := st.forth + [item]);
    ChainGrows(Wants(st.r), st.forth, item);
    forall k | 0 <= k < |after.forth| ensures OfferIsCurrent(after, k) {
      if k < |st.forth| {
        assert OfferIsCurrent(st, k);
        assert after.forth[k] == st.forth[k];
      }
    }
  }

  lemma RepliesStand(c: Config, st: State, after: State)
    requires Replied(c, st) && after.back == st.back && after.r == st.r
    requires Floor(after.s) <= Floor(st.s) && st.s.file <= after.s.file
    ensures Replied(c, after)
  {
    forall k | 0 <= k < |after.back| ensures Sound(c, after, after.back[k]) {
      assert Sound(c, st, st.back[k]);
    }
  }

  lemma SpeakingKeeps(c: Config, st: State)
    requires Linked(c, st) && st.s.Speaks()
    ensures Linked(c, Do(c, st, SenderSpeaks))
  {
    match st.s.phase
    case Starting => HeaderKeeps(c, st, Header(ZRQINIT, 0, 0, 0), st.s);
    case Opening => OpeningKeeps(c, st);
    case Placing => PlacingKeeps(c, st);
    case Sending => BlockKeeps(c, st);
    case AtEnd =>
      HeaderKeeps(c, st, Header(ZEOF, Size(c, st.s.file) % TWO_32, st.s.file, Size(c, st.s.file)), st.s.(phase := Ending));
    case Closing => HeaderKeeps(c, st, Header(ZFIN, 0, st.s.file, 0), st.s.(phase := Finishing));
  }

  // A header that neither offers nor places anything.
  lemma HeaderKeeps(c: Config, st: State, item: Item, s: Sender)
    requires Linked(c, st)
    requires item.Header? && item.kind in {ZRQINIT, ZEOF, ZFIN, ZCRC} && Truthful(c, item) && item.file == st.s.file
    requires
      || s == st.s
      || (st.s.phase == AtEnd && s == st.s.(phase := Ending))
      || (st.s.phase == Closing && s == st.s.(phase := Finishing))
    requires s.phase != Sending && s.phase != Checking
    ensures Linked(c, st.(s := s, forth := st.forth + [item]))
  {
    ItemSent(c, st, item, s);
    RepliesStand(c, st, st.(s := s, forth := st.forth + [item]));
  }

  lemma PlacingKeeps(c: Config, st: State)
    requires Linked(c, st) && st.s.phase == Placing
    ensures Linked(c, Do(c, st, SenderSpeaks))
  {
    var after := Do(c, st, SenderSpeaks);
    ItemSent(c, st, Header(ZDATA, st.s.position % TWO_32, st.s.file, st.s.position), after.s);
    RepliesStand(c, st, after);
  }

  lemma OpeningKeeps(c: Config, st: State)
    requires Linked(c, st) && st.s.phase == Opening
    ensures Linked(c, Do(c, st, SenderSpeaks))
  {
    var after := Do(c, st, SenderSpeaks);
    var offer := Header(ZFILE, 0, st.s.file, 0);
    var info := Offer(c.offers[st.s.file], st.s.file);
    ItemSent(c, st, offer, after.s);
    ItemSent(c, st.(s := after.s, forth := st.forth + [offer]), info, after.s);
    assert st.forth + [offer, info] == st.forth + [offer] + [info];
    RepliesStand(c, st, after);
  }

  lemma BlockKeeps(c: Config, st: State)
    requires Linked(c, st) && st.s.phase == Sending
    ensures Linked(c, Do(c, st, SenderSpeaks))
  {
    var said := SpeakBlock(st.s, c.files[st.s.file].data);
    BlockIsTruthful(c, st.s);
    BlockSentKeeps(c, st, said.items[0], said.sender);
  }

  lemma BlockIsTruthful(c: Config, s: Sender)
    requires s.file < |c.files| && s.position <= Size(c, s.file)
    ensures
      var said := SpeakBlock(s, c.files[s.file].data);
      && |said.items| == 1 && said.items[0].Packet? && Truthful(c, said.items[0])
      && said.items[0].file == s.file && said.items[0].at == s.position
      && said.sender.file == s.file && said.sender.position == s.position + |said.items[0].content| <= Size(c, s.file)
      && (said.sender.phase == AtEnd || said.sender.phase == Checking)
  {
  }

  lemma BlockSentKeeps(c: Config, st: State, block: Item, s: Sender)
    requires Linked(c, st) && st.s.phase == Sending
    requires block.Packet? && Truthful(c, block) && block.file == st.s.file && block.at == st.s.position
    requires s.file == st.s.file && s.position == st.s.position + |block.content| <= Size(c, s.file)
    requires s.phase == AtEnd || s.phase == Checking
    ensures Linked(c, st.(s := s, forth := st.forth + [block]))
  {
    ItemSent(c, st, block, s);
    RepliesStand(c, st, st.(s := s, forth := st.forth + [block]));
  }

  // The sender moves on from a file the receiver has resolved.
  lemma TurningKeeps(c: Config, st: State, used: nat)
    requires Linked(c, st) && (st.s.InData() || st.s.phase == Offering) && used <= |st.back|
    requires st.r.resolved == st.s.file + 1
    requires forall k :: used <= k < |st.back| ==> st.back[k].stage >= 2 * (st.s.file + 1)
    ensures Linked(c, st.(s := Turn(c, st.s.file + 1), back := st.back[used..]))
  {
    var after := st.(s := Turn(c, st.s.file + 1), back := st.back[used..]);
    forall k | 0 <= k < |after.back| ensures Sound(c, after, after.back[k]) {
      assert Sound(c, st, st.back[used + k]);
    }
    forall k | 0 <= k < |after.forth| ensures OfferIsCurrent(after, k) && NotAhead(after.forth[k], after.s.file) {
      assert OfferIsCurrent(st, k) && NotAhead(st.forth[k], st.s.file);
    }
  }

  // Any other change of the sender's on reading.
  lemma ListeningOnKeeps(c: Config, st: State, s: Sender, used: nat)
    requires Linked(c, st) && used <= |st.back|
    requires s.file == st.s.file && HasFile(c, s) && (Offered(st.s) ==> Offered(s))
             && (s.phase == Starting ==> st.s.phase == Starting)
    requires s.phase == Finishing || s.phase == Done ==> st.s.phase == Finishing
    requires s.phase !in {Closing, AtEnd, Overread}
    requires s.phase == Placing ==> s.file < |c.files| && s.position <= Size(c, s.file) && s.position < TWO_32
    requires s.phase == Sending || s.phase == Checking ==> st.s.phase in {Sending, Checking} && s.position == st.s.position
    requires forall k :: used <= k < |st.back| ==> Floor(s) <= st.back[k].stage
    requires st.r.Running() ==> Floor(s) <= st.r.Stage()
    ensures Linked(c, st.(s := s, back := st.back[used..]))
  {
    var after := st.(s := s, back := st.back[used..]);
    forall k | 0 <= k < |after.back| ensures Sound(c, after, after.back[k]) {
      assert Sound(c, st, st.back[used + k]);
    }
    OfferStaysCurrent(st, after);
  }

  // A request for a place is for a place in the sender's own file.
  lemma RequestIsForThisFile(c: Config, st: State, k: nat)
    requires InStep(c, st) && Replied(c, st) && k < |st.back| && st.back[k].kind == ZRPOS
    requires st.s.InData() || st.s.phase == Offering
    ensures st.back[k].stage == 2 * st.s.file + 1 && st.back[k].pos < TWO_32
    ensures st.back[k].pos <= Size(c, st.s.file)
    ensures st.r.Running() ==> 2 * st.s.file + 1 <= st.r.Stage()
    ensures forall j :: k < j < |st.back| ==> st.back[j].stage >= 2 * st.s.file + 1
  {
    assert Sound(c, st, st.back[k]);
    LaterStages(st.back, k);
    Halves(st.back[k].stage);
    ModBound(st.back[k].at);
  }

  lemma Halves(stage: nat)
    ensures stage == 2 * (stage / 2) + stage % 2
  {
  }

  lemma ModBound(at: nat)
    ensures at % TWO_32 <= at
  {
  }

  lemma LaterStages(back: seq<Reply>, k: nat)
    requires InOrder(back) && k < |back|
    ensures forall j :: k < j < |back| ==> back[j].stage >= back[k].stage + if back[k].kind == ZSKIP then 1 else 0
  {
  }

  lemma ListeningKeeps(c: Config, st: State, e: Event, used: nat)
    requires Linked(c, st) && st.s.Listens() && SenderCanHear(st.back, e, used)
    ensures Linked(c, Do(c, st, SenderListens(e, used)))
  {
    match st.s.phase
    case Starting => ListeningStartingKeeps(c, st, e, used);
    case Offering => ListeningOfferingKeeps(c, st, e, used);
    case Checking => ListeningCheckingKeeps(c, st, e, used);
    case Ending => ListeningEndingKeeps(c, st, e, used);
    case Finishing => ListeningFinishingKeeps(c, st, e, used);
  }

  lemma SameItems(forth: seq<Item>)
    ensures forth + [] == forth
  {
  }

  lemma FloorStands(c: Config, st: State)
    requires Replied(c, st)
    ensures forall k :: 0 <= k < |st.back| ==> Floor(st.s) <= st.back[k].stage
  {
    forall k | 0 <= k < |st.back| ensures Floor(st.s) <= st.back[k].stage {
      assert Sound(c, st, st.back[k]);
    }
  }

  lemma ListeningStartingKeeps(c: Config, st: State, e: Event, used: nat)
    requires Linked(c, st) && st.s.phase == Starting && SenderCanHear(st.back, e, used)
    ensures Linked(c, Do(c, st, SenderListens(e, used)))
  {
    if e.Heard? && e.kind == ZRINIT {
      BeginningKeeps(c, st, used);
    } else {
      StayingKeeps(c, st, ListenStarting(c, st.s, e), used);
    }
    SameItems(st.forth);
  }

  lemma BeginningKeeps(c: Config, st: State, used: nat)
    requires Linked(c, st) && st.s.phase == Starting && used <= |st.back|
    ensures Linked(c, st.(s := Turn(c, 0), back := st.back[used..]))
  {
    var after := st.(s := Turn(c, 0), back := st.back[used..]);
    forall k | 0 <= k < |after.back| ensures Sound(c, after, after.back[k]) {
      assert Sound(c, st, st.back[used + k]);
    }
    forall k | 0 <= k < |after.forth| ensures OfferIsCurrent(after, k) {
      assert OfferIsCurrent(st, k);
    }
  }

  // A refusal of the file offered, or readiness for the next, means the
  // receiver has resolved this one.
  lemma AnswerMeansResolved(c: Config, st: State, k: nat)
    requires InStep(c, st) && Replied(c, st) && k < |st.back|
    requires (st.s.phase == Offering && st.back[k].kind == ZSKIP) || (st.s.phase == Ending && st.back[k].kind == ZRINIT)
    ensures st.r.resolved == st.s.file + 1
    ensures forall j :: k < j < |st.back| ==> st.back[j].stage >= 2 * (st.s.file + 1)
  {
    assert Sound(c, st, st.back[k]);
    LaterStages(st.back, k);
    Halves(st.back[k].stage);
  }

  lemma ListeningOfferingKeeps(c: Config, st: State, e: Event, used: nat)
    requires Linked(c, st) && st.s.phase == Offering && SenderCanHear(st.back, e, used)
    ensures Linked(c, Do(c, st, SenderListens(e, used)))
  {
    if e.Heard? && e.kind == ZSKIP {
      OfferSkippedKeeps(c, st, used);
    } else if e.Heard? && e.kind == ZCRC {
      ChecksumAskedKeeps(c, st, used);
    } else {
      OfferingOnKeeps(c, st, e, used);
    }
    SameItems(st.forth);
  }

  lemma OfferSkippedKeeps(c: Config, st: State, used: nat)
    requires Linked(c, st) && st.s.phase == Offering && 0 < used <= |st.back| && st.back[used - 1].kind == ZSKIP
    ensures Linked(c, st.(s := Turn(c, st.s.file + 1), back := st.back[used..]))
  {
    AnswerMeansResolved(c, st, used - 1);
    TurningKeeps(c, st, used);
  }

  lemma ChecksumAskedKeeps(c: Config, st: State, used: nat)
    requires Linked(c, st) && st.s.phase == Offering && used <= |st.back|
    ensures Linked(c, st.(forth := st.forth + [Header(ZCRC, 0, st.s.file, 0)], back := st.back[used..]))
  {
    FloorStands(c, st);
    ListeningOnKeeps(c, st, st.s, used);
    HeaderKeeps(c, st.(back := st.back[used..]), Header(ZCRC, 0, st.s.file, 0), st.s);
  }

  // A request for a place moves the sender there.
  lemma RequestedKeeps(c: Config, st: State, used: nat)
    requires Linked(c, st) && (st.s.phase == Offering || st.s.InData())
    requires 0 < used <= |st.back| && st.back[used - 1].kind == ZRPOS
    ensures st.s.file < |c.files| && st.back[used - 1].pos <= Size(c, st.s.file)
    ensures Linked(c, st.(s := Sender(Placing, st.s.file, st.back[used - 1].pos), back := st.back[used..]))
  {
    RequestIsForThisFile(c, st, used - 1);
    ListeningOnKeeps(c, st, Sender(Placing, st.s.file, st.back[used - 1].pos), used);
  }

  // Nothing useful heard: the sender waits on, or gives up.
  lemma StayingKeeps(c: Config, st: State, s: Sender, used: nat)
    requires Linked(c, st) && st.s.Listens() && used <= |st.back|
    requires s == st.s || s == st.s.(phase := GaveUp) || (st.s.phase == Checking && s == st.s.(phase := Sending))
             || (st.s.phase == Finishing && s == st.s.(phase := Done))
    ensures Linked(c, st.(s := s, back := st.back[used..]))
  {
    FloorStands(c, st);
    ListeningOnKeeps(c, st, s, used);
  }

  lemma OfferingOnKeeps(c: Config, st: State, e: Event, used: nat)
    requires Linked(c, st) && st.s.phase == Offering && SenderCanHear(st.back, e, used)
    requires e.Heard? ==> e.kind != ZSKIP && e.kind != ZCRC
    ensures Linked(c, st.(s := ListenOffering(c, st.s, e).sender, back := st.back[used..]))
  {
    if e.Heard? && e.kind == ZRPOS {
      RequestedKeeps(c, st, used);
    } else {
      StayingKeeps(c, st, Await(st.s, e), used);
    }
  }

  lemma ListeningCheckingKeeps(c: Config, st: State, e: Event, used: nat)
    requires Linked(c, st) && st.s.phase == Checking && SenderCanHear(st.back, e, used)
    ensures Linked(c, Do(c, st, SenderListens(e, used)))
  {
    if e.Heard? && e.kind == ZRPOS {
      RequestedKeeps(c, st, used);
    } else {
      StayingKeeps(c, st, ListenChecking(st.s, e), used);
    }
    SameItems(st.forth);
  }

  lemma ListeningEndingKeeps(c: Config, st: State, e: Event, used: nat)
    requires Linked(c, st) && st.s.phase == Ending && SenderCanHear(st.back, e, used)
    ensures Linked(c, Do(c, st, SenderListens(e, used)))
  {
    if e.Heard? && e.kind == ZRINIT {
      FileEndedKeeps(c, st, used);
    } else if e.Heard? && e.kind == ZRPOS {
      RequestedKeeps(c, st, used);
    } else {
      StayingKeeps(c, st, Await(st.s, e), used);
    }
    SameItems(st.forth);
  }

  lemma FileEndedKeeps(c: Config, st: State, used: nat)
    requires Linked(c, st) && st.s.phase == Ending && 0 < used <= |st.back| && st.back[used - 1].kind == ZRINIT
    ensures Linked(c, st.(s := Turn(c, st.s.file + 1), back := st.back[used..]))
  {
    AnswerMeansResolved(c, st, used - 1);
    TurningKeeps(c, st, used);
  }

  lemma ListeningFinishingKeeps(c: Config, st: State, e: Event, used: nat)
    requires Linked(c, st) && st.s.phase == Finishing && SenderCanHear(st.back, e, used)
    ensures Linked(c, Do(c, st, SenderListens(e, used)))
  {
    StayingKeeps(c, st, ListenFinishing(st.s, e), used);
    SameItems(st.forth);
  }

  lemma SenderQuittingKeeps(c: Config, st: State)
    requires Linked(c, st)
    ensures Linked(c, st.(s := st.s.(phase := GaveUp)))
  {
    assert st.back[0..] == st.back;
    FloorStands(c, st);
    ListeningOnKeeps(c, st, st.s.(phase := GaveUp), 0);
  }
}
