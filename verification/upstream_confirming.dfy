// Confirming a push. The upstream keeps an upload it asked about, so that a
// confirmation needs no second copy; only if the upload has gone is the file
// copied again, and never more than once for one push.
module UpstreamConfirming {
  import opened UpstreamChoice
  import opened UpstreamProtocol

  // Neither the client nor anyone with the write lock is in the middle of
  // something.
  predicate MayPush(st: State, c: nat) {
    c < |st.clients| && (st.clients[c].phase.Idle? || st.clients[c].phase.Ended?) && st.lock.Free?
  }

  predicate IsPushBy(a: Action, c: nat) {
    a.StartPush? && a.c == c
  }

  // The file is copied, whole or not.
  predicate IsCopyBy(a: Action, c: nat) {
    (a.CopyArrives? || a.CopyFails?) && a.c == c
  }

  function Pushes(actions: seq<Action>, c: nat): nat {
    if actions == [] then 0 else (if IsPushBy(actions[0], c) then 1 else 0) + Pushes(actions[1..], c)
  }

  function Copies(actions: seq<Action>, c: nat): nat {
    if actions == [] then 0 else (if IsCopyBy(actions[0], c) then 1 else 0) + Copies(actions[1..], c)
  }

  lemma OneMore(a: Action, rest: seq<Action>, c: nat)
    ensures Pushes([a] + rest, c) == (if IsPushBy(a, c) then 1 else 0) + Pushes(rest, c)
    ensures Copies([a] + rest, c) == (if IsCopyBy(a, c) then 1 else 0) + Copies(rest, c)
  {
    assert ([a] + rest)[1..] == rest;
  }

  lemma {:induction false} ServerNeitherPushesNorCopies(actions: seq<Action>, t: nat, c: nat)
    requires AllFor(actions, t)
    ensures Pushes(actions, c) == 0 && Copies(actions, c) == 0
  {
    if actions != [] {
      assert IsFor(actions[0], t);
      ServerNeitherPushesNorCopies(actions[1..], t, c);
    }
  }

  // ---- No push copies twice ----

  // What the push a client is in the middle of may still copy.
  function StillToCopy(phase: Phase): nat {
    if phase.Copying? || (phase.Running? && phase.first) then 1 else 0
  }

  // However it goes, a client copies its file at most once each time it pushes.
  lemma {:induction false} CopiesOnceAPush(rules: Rules, st: State, actions: seq<Action>, end: State, c: nat)
    requires Leads(rules, st, actions, end) && c < |st.clients|
    ensures Copies(actions, c) <= Pushes(actions, c) + StillToCopy(st.clients[c].phase)
    decreases |actions|
  {
    if actions != [] {
      var next := Do(rules, st, actions[0]);
      assert |next.clients| == |st.clients|;
      CopiesOnceAPush(rules, next, actions[1..], end, c);
    }
  }

  // ---- A push, confirmed or not, goes through ----

  // An import asked for, with what was uploaded in its place.
  lemma AskedGoesThrough(rules: Rules, st: State, c: nat, confirm: string, first: bool, n: Net)
    returns (actions: seq<Action>, end: State)
    requires c < |st.clients| && st.lock.Free?
    requires st.clients[c].slot in st.uploads && st.uploads[st.clients[c].slot] == st.clients[c].file
    requires Fair(IntoNet(n), st.nets, st.clients[c].file, confirm, rules) && !Has(st.held, InNet(n.id), st.clients[c].file)
    ensures Leads(rules, Ask1(st, c, confirm, first), actions, end) && AllFor(actions, |st.commands|)
    ensures ToldPushed(end, c, InNet(n.id)) && Has(end.held, InNet(n.id), st.clients[c].file)
  {
    var asked, f, target := Ask1(st, c, confirm, first), st.clients[c].file, InNet(n.id);
    actions, end := ImportRuns(rules, asked, |st.commands|, c, IntoNet(n), f, target);
    assert IsAt(end.held[|st.held|], target, f);
  }

  // A file about to be copied.
  lemma CopyGoesThrough(rules: Rules, st: State, c: nat, n: Net) returns (actions: seq<Action>, end: State)
    requires c < |st.clients| && st.lock.Free? && st.clients[c].phase.Copying?
    requires Fair(IntoNet(n), st.nets, st.clients[c].file, st.clients[c].phase.confirm, rules)
    requires !Has(st.held, InNet(n.id), st.clients[c].file)
    ensures Leads(rules, st, actions, end) && Pushes(actions, c) == 0 && Copies(actions, c) == 1
    ensures ToldPushed(end, c, InNet(n.id)) && Has(end.held, InNet(n.id), st.clients[c].file)
  {
    var arrived := st.(uploads := st.uploads[st.clients[c].slot := st.clients[c].file]);
    var confirm := st.clients[c].phase.confirm;
    var rest;
    rest, end := AskedGoesThrough(rules, arrived, c, confirm, false, n);
    Then(rules, st, CopyArrives(c), Ask1(arrived, c, confirm, false), rest, end);
    actions := [CopyArrives(c)] + rest;
    OneMore(CopyArrives(c), rest, c);
    ServerNeitherPushesNorCopies(rest, |st.commands|, c);
  }

  // A confirmation finds the upload gone: the client is told so, and copies.
  lemma GoneIsCopied(rules: Rules, st: State, c: nat, confirm: string, rest: seq<Action>, end: State, copying: State)
    returns (actions: seq<Action>)
    requires c < |st.clients| && st.clients[c].slot !in st.uploads
    requires copying == Client1(st, c, Copying(confirm)).(commands := st.commands + [Command(c, confirm, Over(NO_FILE, FileMissing))])
    requires Leads(rules, copying, rest, end)
    ensures Leads(rules, Ask1(st, c, confirm, true), actions, end)
    ensures Pushes(actions, c) == Pushes(rest, c) && Copies(actions, c) == Copies(rest, c)
  {
    var asked, t := Ask1(st, c, confirm, true), |st.commands|;
    var missing := To(asked, t, Decided(NO_FILE, FileMissing));
    var replying := To(asked, t, Replying(NO_FILE, FileMissing));
    assert st.uploads - {st.clients[c].slot} == st.uploads;
    assert Do(rules, missing, CleanUp(t)) == replying;
    assert Do(rules, replying, Deliver(t)) == copying by {
      assert copying.commands == Delivering(replying, t).commands;
      assert copying.clients == Delivering(replying, t).clients;
    }
    Then(rules, replying, Deliver(t), copying, rest, end);
    var a2 := [Deliver(t)] + rest;
    Then(rules, missing, CleanUp(t), replying, a2, end);
    var a1 := [CleanUp(t)] + a2;
    Then(rules, asked, Open(t), missing, a1, end);
    actions := [Open(t)] + a1;
    OneMore(Deliver(t), rest, c);
    OneMore(CleanUp(t), a2, c);
    OneMore(Open(t), a1, c);
  }

  lemma ConfirmedGoesThrough(rules: Rules, st: State, c: nat, confirm: string, n: Net)
    returns (actions: seq<Action>, end: State)
    requires MayPush(st, c) && confirm != ""
    requires st.clients[c].slot in st.uploads ==> st.uploads[st.clients[c].slot] == st.clients[c].file
    requires Fair(IntoNet(n), st.nets, st.clients[c].file, confirm, rules) && !Has(st.held, InNet(n.id), st.clients[c].file)
    ensures Leads(rules, st, [StartPush(c, confirm)] + actions, end)
    ensures ToldPushed(end, c, InNet(n.id)) && Has(end.held, InNet(n.id), st.clients[c].file)
    ensures Pushes(actions, c) == 0
    ensures Copies(actions, c) == if st.clients[c].slot in st.uploads then 0 else 1
  {
    if st.clients[c].slot in st.uploads {
      actions, end := AskedGoesThrough(rules, st, c, confirm, true, n);
      ServerNeitherPushesNorCopies(actions, |st.commands|, c);
    } else {
      var copying := Client1(st, c, Copying(confirm)).(commands := st.commands + [Command(c, confirm, Over(NO_FILE, FileMissing))]);
      var rest;
      rest, end := CopyGoesThrough(rules, copying, c, n);
      actions := GoneIsCopied(rules, st, c, confirm, rest, end, copying);
    }
    Then(rules, st, StartPush(c, confirm), Ask1(st, c, confirm, true), actions, end);
  }

  // Wherever a net may take the session and does not have it, one push can put
  // it there and have the client told so: with nothing to confirm, or with the
  // confirmation the net needs, whether the upload is still there or has gone.
  // The file is copied again only in the last case.
  lemma AnyPushGoesThrough(rules: Rules, st: State, c: nat, confirm: string, n: Net)
    requires MayPush(st, c)
    requires confirm != "" && st.clients[c].slot in st.uploads ==> st.uploads[st.clients[c].slot] == st.clients[c].file
    requires Fair(IntoNet(n), st.nets, st.clients[c].file, confirm, rules) && !Has(st.held, InNet(n.id), st.clients[c].file)
    ensures exists actions, end ::
      && Leads(rules, st, [StartPush(c, confirm)] + actions, end) && Pushes(actions, c) == 0
      && Copies(actions, c) == (if confirm != "" && st.clients[c].slot in st.uploads then 0 else 1)
      && ToldPushed(end, c, InNet(n.id)) && Has(end.held, InNet(n.id), st.clients[c].file)
  {
    if confirm != "" {
      var actions, end := ConfirmedGoesThrough(rules, st, c, confirm, n);
    } else {
      var copying := Client1(st, c, Copying(""));
      var actions, end := CopyGoesThrough(rules, copying, c, n);
      Then(rules, st, StartPush(c, ""), copying, actions, end);
    }
  }

  // ---- A push tried again ----

  // Where the net has the session by now, as after a reply that was lost, the
  // push says so as if it had put it there, and nothing is added.
  lemma PushAgainIsHarmless(rules: Rules, st: State, c: nat, n: Net)
    requires MayPush(st, c) && Fair(IntoNet(n), st.nets, st.clients[c].file, "", rules)
    requires Has(st.held, InNet(n.id), st.clients[c].file)
    ensures exists actions, end ::
      && Leads(rules, st, [StartPush(c, "")] + actions, end) && Pushes(actions, c) == 0
      && ToldPushed(end, c, InNet(n.id)) && end.held == st.held
  {
    var f, t, asked := st.clients[c].file, |st.commands|, Uploaded(st, c);
    var chosen := To(asked, t, Chosen(f, InNet(n.id)));
    var found, end := FoundThere(rules, chosen, t, c, f, InNet(n.id));
    var rest := Chooses(rules, asked, t, f, IntoNet(n), chosen, found, end);
    Uploads(rules, st, c, rest, end);
    OneMore(CopyArrives(c), rest, c);
    ServerNeitherPushesNorCopies(rest, t, c);
  }

  lemma FoundThere(rules: Rules, st: State, t: nat, c: nat, f: SessionFile, target: Target)
    returns (actions: seq<Action>, end: State)
    requires t < |st.commands| && st.commands[t].stage == Chosen(f, target) && st.commands[t].client == c && st.lock.Free?
    requires c < |st.clients| && st.clients[c].phase.Running? && st.clients[c].phase.ticket == t && Has(st.held, target, f)
    ensures Leads(rules, st, actions, end) && AllFor(actions, t) && ToldPushed(end, c, target) && end.held == st.held
  {
    var holding := To(st, t, Holding(f, target)).(lock := HeldBy(t));
    var decided := To(st, t, Decided(f, AlreadyImported(target)));
    var last;
    last, end := PushReplied(rules, decided, t, c, AlreadyImported(target));
    ThenFor(rules, holding, t, LookForIt(t), decided, last, end);
    actions := [TakeLock(t)] + ([LookForIt(t)] + last);
    ThenFor(rules, st, t, TakeLock(t), holding, [LookForIt(t)] + last, end);
  }

  // ---- Asked, then confirmed ----

  // The upstream asks: nothing is imported, and the upload stays.
  lemma PushIsAskedAbout(rules: Rules, st: State, c: nat, n: Net) returns (actions: seq<Action>, end: State)
    requires MayPush(st, c) && Fair(Ask(n), st.nets, st.clients[c].file, "", rules)
    ensures Leads(rules, st, [StartPush(c, "")] + actions, end) && Pushes(actions, c) == 0 && Copies(actions, c) == 1
    ensures |end.clients| == |st.clients| && end.clients[c] == st.clients[c].(phase := Ended(AskUser(n.id)))
    ensures end.nets == st.nets && end.held == st.held && end.lock == st.lock
    ensures end.uploads == st.uploads[st.clients[c].slot := st.clients[c].file]
  {
    var f, t, asked := st.clients[c].file, |st.commands|, Uploaded(st, c);
    var decided := To(asked, t, Decided(f, NeedsConfirmation(n.id)));
    var last;
    last, end := PushReplied(rules, decided, t, c, NeedsConfirmation(n.id));
    assert Choosing(To(asked, t, Reading(f)), t, Ask(n)) == decided;
    var rest := Chooses(rules, asked, t, f, Ask(n), decided, last, end);
    Uploads(rules, st, c, rest, end);
    actions := [CopyArrives(c)] + rest;
    OneMore(CopyArrives(c), rest, c);
    ServerNeitherPushesNorCopies(rest, t, c);
  }

  // A net that is only named alike asks first, with nothing imported; confirmed
  // under that net's name, what is already there goes in, with no copy more.
  lemma AskedThenConfirmed(rules: Rules, st: State, c: nat, n: Net)
    requires MayPush(st, c) && Fair(Ask(n), st.nets, st.clients[c].file, "", rules)
    requires n.name != "" && rules.same(n.name, n.name) && !Has(st.held, InNet(n.id), st.clients[c].file)
    ensures exists asking, between, confirming, end ::
      && Leads(rules, st, [StartPush(c, "")] + asking, between)
      && c < |between.clients| && between.clients[c].phase == Ended(AskUser(n.id)) && between.held == st.held
      && Leads(rules, between, [StartPush(c, n.name)] + confirming, end)
      && Pushes(confirming, c) == 0 && Copies(confirming, c) == 0
      && ToldPushed(end, c, InNet(n.id)) && Has(end.held, InNet(n.id), st.clients[c].file)
  {
    var asking, between := PushIsAskedAbout(rules, st, c, n);
    var confirming, end := ConfirmedGoesThrough(rules, between, c, n.name, n);
  }

  // ---- What was asked about stays ----

  lemma {:induction false} CommandsStay(rules: Rules, st: State, actions: seq<Action>, end: State, t: nat)
    requires Leads(rules, st, actions, end) && t < |st.commands|
    ensures t < |end.commands| && SlotOf(end, t) == SlotOf(st, t)
    decreases |actions|
  {
    if actions != [] {
      var next := Do(rules, st, actions[0]);
      assert t < |next.commands| && next.commands[t].client == st.commands[t].client;
      assert Owners(next.clients) == Owners(st.clients);
      assert SlotOf(next, t) == SlotOf(st, t) by {
        var c := st.commands[t].client;
        assert c < |st.clients| ==> Owners(next.clients)[c] == Owners(st.clients)[c];
      }
      CommandsStay(rules, next, actions[1..], end, t);
    }
  }

  // Once it is settled what a command comes to, it comes to nothing else.
  lemma {:induction false} OutcomeStays(rules: Rules, st: State, actions: seq<Action>, end: State, t: nat)
    requires Leads(rules, st, actions, end) && t < |st.commands| && t < |end.commands|
    requires (st.commands[t].stage.Settled() || st.commands[t].stage.Died?) && end.commands[t].stage.Settled()
    ensures st.commands[t].stage.Settled() && st.commands[t].stage.outcome == end.commands[t].stage.outcome
    decreases |actions|
  {
    if actions != [] {
      var next := Do(rules, st, actions[0]);
      assert t < |next.commands|;
      assert next.commands[t].stage.Died? || (next.commands[t].stage.Settled() && st.commands[t].stage.Settled()
                                              && next.commands[t].stage.outcome == st.commands[t].stage.outcome);
      OutcomeStays(rules, next, actions[1..], end, t);
    }
  }

  // The upload of command `t` is cleared: as an old one, or as done with after
  // another import of it.
  predicate Clears(a: Action, end: State, t: nat)
    requires t < |end.commands|
  {
    || a == Vanish(SlotOf(end, t))
    || (a.CleanUp? && a.t != t && a.t < |end.commands| && SlotOf(end, a.t) == SlotOf(end, t))
  }

  // What an import asked about is still there, for it to be confirmed, unless
  // it was cleared.
  lemma {:induction false} AskedIsKept(rules: Rules, st: State, actions: seq<Action>, end: State, t: nat)
    requires Leads(rules, st, actions, end) && t < |st.commands| && SlotOf(st, t) in st.uploads
    requires t < |end.commands| && end.commands[t].stage.Settled() && end.commands[t].stage.outcome.NeedsConfirmation?
    requires forall i :: 0 <= i < |actions| ==> !Clears(actions[i], end, t)
    ensures SlotOf(st, t) in end.uploads
    decreases |actions|
  {
    if actions != [] {
      var a, next := actions[0], Do(rules, st, actions[0]);
      assert !Clears(a, end, t);
      CommandsStay(rules, st, actions, end, t);
      CommandsStay(rules, next, actions[1..], end, t);
      if a.CleanUp? {
        CommandsStay(rules, st, actions, end, a.t);
        if a.t == t {
          OutcomeStays(rules, st, actions, end, t);
        }
      }
      assert SlotOf(st, t) in next.uploads;
      AskedIsKept(rules, next, actions[1..], end, t);
    }
  }
}
