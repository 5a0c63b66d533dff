// Runs that can happen. Over a line that loses nothing a whole batch arrives;
// and a file whose length wraps to a block boundary in 32 bits can arrive cut
// short, which is exactly when the length alone does not tell.
module ZmodemRuns {
  import opened Bytes
  import opened ZmodemArrivals
  import opened ZmodemFileInfo
  import opened ZmodemHolding
  import opened ZmodemInvariant
  import opened ZmodemMachine
  import opened ZmodemSafety

  // None of the first `n` files keeps the others from being reached.
  predicate Passable(c: Config, n: nat) {
    n <= |c.files| && forall i :: 0 <= i < n ==> Passes(c, i)
  }

  lemma {:induction false} LeadsOn(c: Config, st: State, actions: seq<Action>, middle: State, last: Action)
    requires Leads(c, st, actions, middle) && Enabled(c, middle, last)
    ensures Leads(c, st, actions + [last], Do(c, middle, last))
    decreases |actions|
  {
    if actions == [] {
      assert [last][1..] == [];
      assert Leads(c, Do(c, st, last), [], Do(c, middle, last));
      assert actions + [last] == [last];
    } else {
      assert (actions + [last])[1..] == actions[1..] + [last];
      LeadsOn(c, Do(c, st, actions[0]), actions[1..], middle, last);
    }
  }

  // The states that can be reached; of them it is only used that they begin
  // with the start and are closed under steps.
  ghost predicate Closed(c: Config, reach: iset<State>) {
    Start() in reach && forall st, a {:trigger Do(c, st, a)} :: st in reach && Enabled(c, st, a) ==> Do(c, st, a) in reach
  }

  ghost function All(c: Config): iset<State> {
    iset st | Reachable(c, st)
  }

  lemma AllIsClosed(c: Config)
    ensures Closed(c, All(c))
  {
    assert Leads(c, Start(), [], Start());
    forall st, a | st in All(c) && Enabled(c, st, a) ensures Do(c, st, a) in All(c) {
      var actions :| Leads(c, Start(), actions, st);
      LeadsOn(c, Start(), actions, st, a);
    }
  }

  lemma Stepped(c: Config, reach: iset<State>, st: State, a: Action, next: State)
    requires Closed(c, reach) && st in reach && Enabled(c, st, a) && next == Do(c, st, a)
    ensures next in reach
  {
  }

  lemma ClosedIsSteady(c: Config, reach: iset<State>)
    requires Closed(c, reach)
    ensures Steady(c, reach)
  {
  }

  // ---- Arriving whole ----

  // The files taken among the first `n`, whole.
  function TakenWhole(c: Config, n: nat): seq<File>
    requires Passable(c, n)
  {
    assert n > 0 ==> Passes(c, n - 1);
    if n == 0 then []
    else if Accepts(c, n - 1) then TakenWhole(c, n - 1) + [CopyOf(c, n - 1, Size(c, n - 1))]
    else TakenWhole(c, n - 1)
  }

  // One file after the other, all of them are reached.
  lemma {:induction false} FilesArrive(c: Config, reach: iset<State>, n: nat) returns (r: Receiver)
    requires Steady(c, reach) && Start() in reach && Passable(c, n)
    ensures Idle(r, n) && r.received == TakenWhole(c, n) && State(Turn(c, n), r, [], []) in reach
  {
    if n == 0 {
      r := NewReceiver();
      ReplyHeard(c, reach, Start(), Turn(c, 0));
      assert Start().back[1..] == [];
    } else {
      r := FilesArrive(c, reach, n - 1);
      r := NextArrives(c, reach, n - 1, r, []);
    }
  }

  // A batch of files of any length that fits 32 bits can go through, all that
  // are taken arriving whole and both ends then reporting success.
  lemma BatchCanArrive(c: Config)
    requires Passable(c, |c.files|)
    ensures exists st :: CanReach(c, Start(), st) && st.s.phase == Done && st.r.mode == Finished
              && st.r.received == TakenWhole(c, |c.files|)
  {
    var reach := From(c, Start());
    FromIsSteady(c, Start());
    var r := FilesArrive(c, reach, |c.files|);
    Closes(c, reach, r, []);
  }

  // ---- Arriving cut short ----

  // A block sent that is spoilt on the way.
  lemma BlockIsSpoilt(c: Config, reach: iset<State>, n: nat, r: Receiver, position: nat)
    requires Closed(c, reach)
    requires Takes(c, n) && position + BLOCK_SIZE < Size(c, n)
    requires State(Sender(Sending, n, position), r, [], []) in reach
    ensures State(Sender(Checking, n, position + BLOCK_SIZE), r, [Garbled], []) in reach
  {
    var bytes, next := c.files[n].data, position + BLOCK_SIZE;
    var s0 := State(Sender(Sending, n, position), r, [], []);
    var s1 := State(Sender(Checking, n, next), r, [Packet(bytes[position..next], G, n, position)], []);
    Stepped(c, reach, s0, SenderSpeaks, s1);
    Stepped(c, reach, s1, Garble(0), s1.(forth := [Garbled]));
  }

  // The request to send it again is lost too.
  lemma BlockIsLost(c: Config, reach: iset<State>, n: nat, r: Receiver, position: nat)
    requires Closed(c, reach)
    requires Takes(c, n) && position + BLOCK_SIZE < Size(c, n)
    requires r.resolved == n && State(Sender(Sending, n, position), Holder(c, n, r, FileData, position), [], []) in reach
    ensures State(Sender(Checking, n, position + BLOCK_SIZE), Holder(c, n, r, InFile, position), [], []) in reach
  {
    var holder := Holder(c, n, r, FileData, position);
    var s2 := State(Sender(Checking, n, position + BLOCK_SIZE), holder, [Garbled], []);
    var again := Reply(ZRPOS, position % TWO_32, 2 * n + 1, position);
    BlockIsSpoilt(c, reach, n, holder, position);
    SpoiltAsksAgain(c, holder);
    SpoiltIsHeard(c, reach, s2, Reaction(holder.(mode := InFile), [again]));
    var s3 := State(s2.s, holder.(mode := InFile), [], [again]);
    Stepped(c, reach, s3, Lose(0), s3.(back := []));
  }

  lemma SpoiltIsHeard(c: Config, reach: iset<State>, st: State, reaction: Reaction)
    requires Closed(c, reach) && st in reach && HasFile(c, st.s) && st.r.Running() && st.forth == [Garbled] && st.back == []
    requires reaction == Hear(c, st.r, Bad(false))
    ensures State(st.s, reaction.receiver, [], reaction.replies) in reach
  {
    assert st.forth[1..] == [] && [] + reaction.replies == reaction.replies;
    ClosedIsSteady(c, reach);
    Hears(c, reach, st, Bad(false), 1, reaction);
  }

  lemma SpoiltAsksAgain(c: Config, r: Receiver)
    requires r.mode == FileData
    ensures Hear(c, r, Bad(false)) == Reaction(r.(mode := InFile), [r.(mode := InFile).Say(ZRPOS, |r.data|)])
  {
  }

  // The blocks before the cut arrive, and the next one is lost.
  lemma UpToTheCut(c: Config, reach: iset<State>, n: nat, r: Receiver) returns (cut: nat)
    requires Closed(c, reach)
    requires Takes(c, n) && !EndIsClear(Size(c, n)) && Idle(r, n)
    requires State(Sender(Opening, n, 0), r, [], []) in reach
    ensures cut == Size(c, n) % TWO_32 && cut + BLOCK_SIZE < Size(c, n)
    ensures State(Sender(Checking, n, cut + BLOCK_SIZE), Holder(c, n, r, InFile, cut), [], []) in reach
  {
    var size := Size(c, n);
    cut := size % TWO_32;
    WrapKeepsOffset(size);
    var blocks := cut / BLOCK_SIZE;
    assert BLOCK_SIZE * blocks == cut;
    ClosedIsSteady(c, reach);
    FileBegins(c, reach, n, r, []);
    BlocksArrive(c, reach, n, r, blocks);
    BlockIsLost(c, reach, n, r, cut);
  }

  // The end of the file is heard, and looks like the place where the receiver
  // is.
  lemma EndIsTaken(c: Config, reach: iset<State>, n: nat, r: Receiver, st: State, noise: seq<Item>, cut: nat)
    returns (ended: State)
    requires Steady(c, reach) && Takes(c, n) && r.resolved == n && cut == Size(c, n) % TWO_32 <= Size(c, n)
    requires st in reach && HasFile(c, st.s) && st.r == Holder(c, n, r, InFile, cut)
    requires NoHeaders(noise) && st.forth == noise + [EndOf(c, n)]
    ensures ended in reach && ended.r == Received(c, n, r, cut)
  {
    var ready := Reply(ZRINIT, 0, 2 * (n + 1), 0);
    EndHeard(c, n, r, cut);
    assert st.forth[..|noise|] == noise && st.forth[|noise| + 1..] == [];
    Hears(c, reach, st, Heard(ZEOF, cut), |noise| + 1, Reaction(Received(c, n, r, cut), [ready]));
    ended := State(st.s, Received(c, n, r, cut), [], st.back + [ready]);
  }

  // The first file of 2^32 bytes or more, when its length is a multiple of a
  // block's: the run in which it is received cut short.
  lemma CutShort(c: Config, n: nat) returns (ended: State)
    requires Passable(c, n) && Takes(c, n) && !EndIsClear(Size(c, n))
    ensures Reachable(c, ended) && ended.r.resolved == n + 1
    ensures ended.r.received == TakenWhole(c, n) + [CopyOf(c, n, Size(c, n) % TWO_32)]
  {
    AllIsClosed(c);
    ended := CutIn(c, All(c), n);
  }

  lemma CutIn(c: Config, reach: iset<State>, n: nat) returns (ended: State)
    requires Closed(c, reach) && Passable(c, n) && Takes(c, n) && !EndIsClear(Size(c, n))
    ensures ended in reach && ended.r.resolved == n + 1
    ensures ended.r.received == TakenWhole(c, n) + [CopyOf(c, n, Size(c, n) % TWO_32)]
  {
    ClosedIsSteady(c, reach);
    var r := FilesArrive(c, reach, n);
    var cut := UpToTheCut(c, reach, n, r);
    var st := State(Sender(Checking, n, cut + BLOCK_SIZE), Holder(c, n, r, InFile, cut), [], []);
    var sent, noise := SendsTheRest(c, reach, st);
    assert [] + noise + [EndOf(c, n)] == noise + [EndOf(c, n)];
    ended := EndIsTaken(c, reach, n, r, sent, noise, cut);
  }

  // ---- Exactly when ----

  // Each file received is all of the one it is the copy of.
  predicate AllWhole(c: Config, r: Receiver)
    requires r.resolved <= |c.files| && |r.received| == |AcceptedUpTo(c, r.resolved)|
  {
    forall k :: 0 <= k < |r.received| ==> r.received[k].data == c.files[AcceptedUpTo(c, r.resolved)[k]].data
  }

  lemma {:induction false} TakenAreAccepted(c: Config, n: nat)
    requires Passable(c, n)
    ensures |TakenWhole(c, n)| == |AcceptedUpTo(c, n)|
  {
    if n > 0 {
      TakenAreAccepted(c, n - 1);
    }
  }

  lemma {:induction false} AcceptedHasAll(c: Config, count: nat, i: nat) returns (k: nat)
    requires i < count <= |c.files| && Accepts(c, i)
    ensures k < |AcceptedUpTo(c, count)| && AcceptedUpTo(c, count)[k] == i
  {
    if i == count - 1 {
      k := |AcceptedUpTo(c, count)| - 1;
    } else {
      k := AcceptedHasAll(c, count - 1, i);
    }
  }

  // If a file of 2^32 bytes or more was received, the first such file was, and
  // it could be received cut short.
  lemma {:induction false} FirstTooLong(c: Config, r: Receiver, n: nat) returns (m: nat)
    requires r.resolved <= |c.files| && AreCopies(c, AcceptedUpTo(c, r.resolved), r.received)
    requires forall i :: 0 <= i < |c.files| ==> Takes(c, i) || Refuses(c, i)
    requires n < r.resolved && Accepts(c, n) && Size(c, n) >= TWO_32
    ensures Passable(c, m) && Takes(c, m) && !EndIsClear(Size(c, m))
    decreases n
  {
    if i: nat :| i < n && Accepts(c, i) && Size(c, i) >= TWO_32 {
      m := FirstTooLong(c, r, i);
    } else {
      m := n;
      var k := AcceptedHasAll(c, r.resolved, n);
      assert IsCopy(c, AcceptedUpTo(c, r.resolved)[k], r.received[k]);
      assert |r.received[k].data| == Size(c, n) % TWO_32 < Size(c, n);
    }
  }

  lemma CutIsNotWhole(c: Config, n: nat) returns (ended: State)
    requires Passable(c, n) && Takes(c, n) && !EndIsClear(Size(c, n))
    ensures Reachable(c, ended) && ended.r.resolved <= |c.files|
    ensures |ended.r.received| == |AcceptedUpTo(c, ended.r.resolved)| && !AllWhole(c, ended.r)
  {
    ended := CutShort(c, n);
    CutDiffers(c, n, ended.r);
  }

  lemma CutDiffers(c: Config, n: nat, r: Receiver)
    requires Passable(c, n) && Takes(c, n) && Size(c, n) >= TWO_32 && r.resolved == n + 1
    requires r.received == TakenWhole(c, n) + [CopyOf(c, n, Size(c, n) % TWO_32)]
    ensures |r.received| == |AcceptedUpTo(c, n + 1)| && !AllWhole(c, r)
  {
    TakenAreAccepted(c, n);
    var k := |TakenWhole(c, n)|;
    assert AcceptedUpTo(c, n + 1)[k] == n && |r.received[k].data| == Size(c, n) % TWO_32 < Size(c, n);
  }

  // All that is taken arrives whole, in every run, exactly when the first file
  // of 2^32 bytes or more, if there is one, does not end on a block boundary.
  lemma WholeIffEndIsClear(c: Config)
    requires forall i :: 0 <= i < |c.files| ==> Takes(c, i) || Refuses(c, i)
    ensures (forall st :: Reachable(c, st) ==>
               st.r.resolved <= |c.files| && |st.r.received| == |AcceptedUpTo(c, st.r.resolved)| && AllWhole(c, st.r))
            <==> (forall n: nat :: Passable(c, n) && Takes(c, n) ==> EndIsClear(Size(c, n)))
  {
    if n: nat :| Passable(c, n) && Takes(c, n) && !EndIsClear(Size(c, n)) {
      var ended := CutIsNotWhole(c, n);
    } else {
      forall st | Reachable(c, st)
        ensures st.r.resolved <= |c.files| && |st.r.received| == |AcceptedUpTo(c, st.r.resolved)| && AllWhole(c, st.r)
      {
        ReceivedAreCopies(c, st);
        CopiesAreWhole(c, st.r);
      }
    }
  }

  lemma CopiesAreWhole(c: Config, r: Receiver)
    requires r.resolved <= |c.files| && AreCopies(c, AcceptedUpTo(c, r.resolved), r.received)
    requires forall i :: 0 <= i < |c.files| ==> Takes(c, i) || Refuses(c, i)
    requires forall n: nat :: Passable(c, n) && Takes(c, n) ==> EndIsClear(Size(c, n))
    ensures AllWhole(c, r)
  {
    forall k | 0 <= k < |r.received| ensures r.received[k].data == c.files[AcceptedUpTo(c, r.resolved)[k]].data {
      var n := AcceptedUpTo(c, r.resolved)[k];
      assert IsCopy(c, n, r.received[k]);
      if Size(c, n) >= TWO_32 {
        var m := FirstTooLong(c, r, n);
      }
    }
  }
}
