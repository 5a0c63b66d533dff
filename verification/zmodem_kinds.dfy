// What each end says, and what a sender waiting after a file's end has last
// said, in every state that can be reached.
module ZmodemKinds {
  import opened Bytes
  import opened ZmodemArrivals
  import opened ZmodemFileInfo
  import opened ZmodemInvariant
  import opened ZmodemMachine
  import opened ZmodemSafety

  predicate IsSaidBySender(item: Item) {
    item.Header? ==>
      item.kind == ZRQINIT || item.kind == ZFILE || item.kind == ZDATA || item.kind == ZEOF || item.kind == ZFIN || item.kind == ZCRC
  }

  predicate IsSaidByReceiver(reply: Reply) {
    || reply.kind == ZRINIT || reply.kind == ZACK || reply.kind == ZNAK || reply.kind == ZSKIP || reply.kind == ZRPOS
    || reply.kind == ZFIN
  }

  predicate AllSaid(forth: seq<Item>) {
    forall k :: 0 <= k < |forth| ==> IsSaidBySender(forth[k])
  }

  predicate AllReplied(back: seq<Reply>, running: bool) {
    forall k :: 0 <= k < |back| ==> IsSaidByReceiver(back[k]) && (running ==> back[k].kind != ZFIN)
  }

  // What comes last, if anything is left, is the file's end or spoilt.
  predicate EndsInEnd(forth: seq<Item>) {
    forth != [] ==> var last := forth[|forth| - 1]; last.Garbled? || (last.Header? && last.kind == ZEOF)
  }

  predicate Kept(st: State) {
    && AllSaid(st.forth) && AllReplied(st.back, st.r.Running())
    && st.r.mode != Attention && st.r.mode != Again
    && (st.s.phase == Ending ==> EndsInEnd(st.forth))
  }

  lemma ListeningSays(c: Config, s: Sender, e: Event)
    requires s.Listens() && (s.InData() || s.phase == Offering ==> s.file < |c.files|)
    ensures AllSaid(Listen(c, s, e).items)
    ensures Listen(c, s, e).sender.phase == Ending ==> s.phase == Ending && Listen(c, s, e).items == []
  {
  }

  lemma SpeakingSays(c: Config, s: Sender)
    requires s.Speaks() && (s.InData() || s.phase == Opening ==> s.file < |c.files|)
    ensures AllSaid(Speak(c, s).items)
    ensures Speak(c, s).sender.phase == Ending ==>
              Speak(c, s).items != [] && EndsInEnd(Speak(c, s).items)
  {
  }

  lemma HearingSays(c: Config, r: Receiver, e: Event)
    requires Suits(r, e) && r.mode != Attention && r.mode != Again
    requires e.Heard? ==> e.kind != ZSINIT && (r.mode == InFile ==> e.kind != ZFILE)
    ensures var reaction := Hear(c, r, e);
            && AllReplied(reaction.replies, reaction.receiver.Running())
            && reaction.receiver.mode != Attention && reaction.receiver.mode != Again
  {
  }

  lemma RestIsSaid(forth: seq<Item>, used: nat, residue: bool)
    requires used <= |forth| && AllSaid(forth)
    ensures AllSaid(Rest(forth, used, residue)) && (EndsInEnd(forth) ==> EndsInEnd(Rest(forth, used, residue)))
  {
    var rest := Rest(forth, used, residue);
    if rest != [] && used < |forth| {
      assert rest[|rest| - 1] == forth[|forth| - 1];
    }
  }

  lemma HearingKept(c: Config, st: State, e: Event, used: nat, residue: bool)
    requires Invariant(c, st) && Kept(st) && ReceiverCanHear(st.r, st.forth, e, used, residue, c.limit)
    ensures Kept(Do(c, st, ReceiverHears(e, used, residue)))
  {
    if e.Heard? {
      assert IsSaidBySender(st.forth[used - 1]) && OfferIsCurrent(st, used - 1);
    }
    HearingSays(c, st.r, e);
    RestIsSaid(st.forth, used, residue);
  }

  lemma SenderKept(c: Config, st: State, a: Action)
    requires Kept(st) && Enabled(c, st, a) && (a.SenderSpeaks? || a.SenderListens?)
    ensures Kept(Do(c, st, a))
  {
    if a.SenderSpeaks? {
      SpeakingSays(c, st.s);
    } else {
      ListeningSays(c, st.s, a.e);
      assert st.forth + [] == st.forth;
    }
  }

  lemma StepKept(c: Config, st: State, a: Action)
    requires Invariant(c, st) && Kept(st) && Enabled(c, st, a)
    ensures Kept(Do(c, st, a))
  {
    match a
    case ReceiverHears(e, used, residue) => HearingKept(c, st, e, used, residue);
    case Garble(k) =>
    case Lose(k) =>
    case SenderQuits =>
    case ReceiverQuits =>
    case _ => SenderKept(c, st, a);
  }

  // All that is known of a state reached.
  predicate Well(c: Config, st: State) {
    Invariant(c, st) && Kept(st)
  }

  lemma {:induction false} RunIsWell(c: Config, st: State, actions: seq<Action>, end: State)
    requires Well(c, st) && Leads(c, st, actions, end)
    ensures Well(c, end)
    decreases |actions|
  {
    if actions != [] {
      StepKeeps(c, st, actions[0]);
      StepKept(c, st, actions[0]);
      RunIsWell(c, Do(c, st, actions[0]), actions[1..], end);
    }
  }

  lemma ReachableIsWell(c: Config, st: State)
    requires Reachable(c, st)
    ensures Well(c, st)
  {
    var actions :| Leads(c, Start(), actions, st);
    StartsWell(c);
    RunIsWell(c, Start(), actions, st);
  }

  // A faithful run is a run in which the line and the ends do no harm.
  predicate Harmless(a: Action) {
    a.SenderSpeaks? || a.SenderListens? || a.ReceiverHears?
  }

  lemma {:induction false} FaithfulIsHarmless(c: Config, st: State, actions: seq<Action>, end: State)
    requires LeadsFaithfully(c, st, actions, end)
    ensures Leads(c, st, actions, end) && forall i :: 0 <= i < |actions| ==> Harmless(actions[i])
    decreases |actions|
  {
    if actions != [] {
      FaithfulIsHarmless(c, Do(c, st, actions[0]), actions[1..], end);
      forall i | 0 <= i < |actions| ensures Harmless(actions[i]) {
        assert i > 0 ==> actions[i] == actions[1..][i - 1];
      }
    }
  }
}
