// What holds in every state sender and receiver can reach together, over
// every batch, every interleaving and every loss: received files are the
// files sent, in order; nothing is read past a file's end; and neither end
// reports success with a file unaccounted for.
module ZmodemSafety {
  import opened Bytes
  import opened ZmodemFileInfo
  import opened ZmodemHolding
  import opened ZmodemInvariant
  import opened ZmodemMachine
  import opened ZmodemReceiverSteps
  import opened ZmodemSenderSteps

  // ---- Every run ----

  lemma StepKeeps(c: Config, st: State, a: Action)
    requires Invariant(c, st) && Enabled(c, st, a)
    ensures Invariant(c, Do(c, st, a))
  {
    match a
    case SenderSpeaks => SpeakingKeeps(c, st);
    case SenderListens(e, used) => ListeningKeeps(c, st, e, used);
    case SenderQuits => SenderQuittingKeeps(c, st);
    case ReceiverHears(e, used, residue) => HearingKeeps(c, st, e, used, residue);
    case ReceiverQuits => ReceiverQuittingKeeps(c, st);
    case Garble(k) => GarblingKeeps(c, st, k);
    case Lose(k) => LosingKeeps(c, st, k);
  }

  lemma {:induction false} RunKeeps(c: Config, st: State, actions: seq<Action>, end: State)
    requires Invariant(c, st) && Leads(c, st, actions, end)
    ensures Invariant(c, end)
    decreases |actions|
  {
    if actions != [] {
      StepKeeps(c, st, actions[0]);
      RunKeeps(c, Do(c, st, actions[0]), actions[1..], end);
    }
  }

  lemma ReachableKeeps(c: Config, st: State)
    requires Reachable(c, st)
    ensures Invariant(c, st)
  {
    var actions :| Leads(c, Start(), actions, st);
    StartsWell(c);
    RunKeeps(c, Start(), actions, st);
  }

  // ---- What follows ----

  // The file being received is a prefix of the one the receiver is at, and
  // that is the one being sent.
  lemma ReceivingIsPrefix(c: Config, st: State)
    requires Reachable(c, st) && st.r.HoldsFile()
    ensures st.r.resolved == st.s.file < |c.files| && st.r.data <= c.files[st.s.file].data
  {
    ReachableKeeps(c, st);
  }

  // Everything received is, in batch order, the accepted files so far; byte
  // for byte wherever the end of the file is clear.
  lemma ReceivedAreCopies(c: Config, st: State)
    requires Reachable(c, st)
    ensures st.r.resolved <= |c.files| && AreCopies(c, AcceptedUpTo(c, st.r.resolved), st.r.received)
  {
    ReachableKeeps(c, st);
  }

  // Nothing is ever read past the end of a file's bytes.
  lemma SenderStaysInside(c: Config, st: State)
    requires Reachable(c, st)
    ensures st.s.phase != Overread
    ensures st.s.phase == Sending ==> st.s.file < |c.files| && st.s.position <= Size(c, st.s.file)
  {
    ReachableKeeps(c, st);
  }

  // When either end reports success, every file of the batch was received
  // but those refused.
  lemma SuccessMeansAllReceived(c: Config, st: State)
    requires Reachable(c, st) && (st.s.phase == Done || st.r.mode == Finished)
    ensures st.r.resolved == |c.files| && AreCopies(c, AcceptedUpTo(c, |c.files|), st.r.received)
  {
    ReachableKeeps(c, st);
  }

  // For a transfer that offers its files as the sender does, a file whose
  // name holds no NUL is taken exactly when its last part is a file name and
  // it is not too big, and then under that name.
  lemma TakenIff(files: seq<File>, limit: nat, i: nat)
    requires i < |files| && 0 !in files[i].name
    ensures
      var c := TransferOf(files, limit);
      && (Accepts(c, i) <==> IsFileName(BaseName(files[i].name)) && |files[i].data| <= limit)
      && (Accepts(c, i) ==> IsNamed(c, i, BaseName(files[i].name), Since1970(files[i].mtime)))
  {
    UnderstoodAsSent(files, limit, i);
    UnderstoodTells(TransferOf(files, limit), i);
  }

  lemma UnderstoodTells(c: Config, i: nat)
    requires i < |c.files|
    requires c.parse(c.offers[i]) == Understood(c.files[i].name, |c.files[i].data|, Since1970(c.files[i].mtime))
    ensures
      && (Accepts(c, i) <==> IsFileName(BaseName(c.files[i].name)) && |c.files[i].data| <= c.limit)
      && (Accepts(c, i) ==> IsNamed(c, i, BaseName(c.files[i].name), Since1970(c.files[i].mtime)))
  {
  }

  lemma UnderstoodAsSent(files: seq<File>, limit: nat, i: nat)
    requires i < |files| && 0 !in files[i].name
    ensures
      var c := TransferOf(files, limit);
      c.parse(c.offers[i]) == Understood(files[i].name, |files[i].data|, Since1970(files[i].mtime))
  {
    OfferIsInformation(files, limit, i);
    FileInformationRoundTrip(files, i);
  }

  lemma OfferIsInformation(files: seq<File>, limit: nat, i: nat)
    requires i < |files|
    ensures var c := TransferOf(files, limit); c.offers[i] == FileInformation(files, i) && c.parse == ParseFileInformation
  {
  }
}
