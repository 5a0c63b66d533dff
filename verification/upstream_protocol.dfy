// Pushing a session to an upstream: which net it goes into, and that however
// pushes, retries, confirmations, lost connections and cleared uploads
// interleave, no net gets it twice. No client is told it was pushed when it was
// not, unless another client's session goes up under the same name.
module UpstreamProtocol {
  import opened UpstreamChoice

  // Where a session is kept: in a net, or in an ad hoc net of a name.
  datatype Target = InNet(id: int) | InAdHoc(name: string)

  datatype Origin = LoggedHere | PushedBy(ticket: nat)

  datatype Held = Held(target: Target, date: string, startedAt: int, origin: Origin)

  datatype Outcome =
    | Imported(target: Target)
    | AlreadyImported(target: Target)
    | NeedsConfirmation(net: int)
    | FileMissing
    | NotImported

  // How far the server has come with a command. From `Holding` to `Written`
  // it has the write lock, and what it has written is not yet there for
  // anyone else.
  datatype Stage =
    | Waiting
    | Reading(file: SessionFile)
    | Chosen(file: SessionFile, target: Target)
    | Holding(file: SessionFile, target: Target)
    | Absent(file: SessionFile, target: Target)
    | Written(file: SessionFile, target: Target)
    | Decided(file: SessionFile, outcome: Outcome)
    | Replying(file: SessionFile, outcome: Outcome)
    | Over(file: SessionFile, outcome: Outcome)
    | Died
  {
    predicate Locks() {
      Holding? || Absent? || Written?
    }

    predicate Settled() {
      Decided? || Replying? || Over?
    }
  }

  // An import run for a client, on what it uploaded.
  datatype Command = Command(client: nat, confirm: string, stage: Stage)

  datatype Result = Pushed(target: Target) | AskUser(net: int) | Failed

  // `first` is set while a confirmation is tried on what is already there.
  datatype Phase = Idle | Copying(confirm: string) | Running(confirm: string, ticket: nat, first: bool) | Ended(result: Result)

  // A client has one file to push, to one place among the uploads. Clients
  // that push under one name, as one user, have the same place: the name says
  // the net and the date, and not when the session started.
  datatype Client = Client(file: SessionFile, slot: nat, phase: Phase)

  datatype Lock = Free | HeldBy(ticket: nat)

  datatype State = State(
    nets: seq<Net>, held: seq<Held>, uploads: map<nat, SessionFile>, commands: seq<Command>, lock: Lock, clients: seq<Client>)

  predicate IsAt(h: Held, target: Target, f: SessionFile) {
    h.target == target && h.date == f.date && h.startedAt == f.startedAt
  }

  predicate Has(held: seq<Held>, target: Target, f: SessionFile) {
    exists i :: 0 <= i < |held| && IsAt(held[i], target, f)
  }

  // What a client makes of a reply.
  function Decide(o: Outcome): Result {
    match o
    case Imported(t) => Pushed(t)
    case AlreadyImported(t) => Pushed(t)
    case NeedsConfirmation(net) => AskUser(net)
    case _ => Failed
  }

  datatype Action =
    | StartPush(c: nat, confirm: string)
    | CopyArrives(c: nat)
    | CopyFails(c: nat, landed: bool)
    | GiveUp(c: nat)
    | Vanish(slot: nat)
    | Open(t: nat)
    | ChooseNet(t: nat, choice: Choice)
    | TakeLock(t: nat)
    | LookForIt(t: nat)
    | WriteIt(t: nat)
    | Commit(t: nat)
    | Break(t: nat)
    | CleanUp(t: nat)
    | Deliver(t: nat)
    | Die(t: nat)
    | LogSession(h: Held)
    | ChangeNets(nets: seq<Net>)

  predicate HasStage(st: State, t: nat) {
    t < |st.commands|
  }

  ghost predicate Enabled(rules: Rules, st: State, a: Action) {
    match a
    case StartPush(c, confirm) => c < |st.clients| && (st.clients[c].phase.Idle? || st.clients[c].phase.Ended?)
    case CopyArrives(c) => c < |st.clients| && st.clients[c].phase.Copying?
    case CopyFails(c, landed) => c < |st.clients| && st.clients[c].phase.Copying?
    case GiveUp(c) => c < |st.clients| && st.clients[c].phase.Running?
    case Vanish(slot) => true
    case Open(t) => HasStage(st, t) && st.commands[t].stage.Waiting?
    case ChooseNet(t, choice) =>
      && HasStage(st, t) && st.commands[t].stage.Reading?
      && Fair(choice, st.nets, st.commands[t].stage.file, st.commands[t].confirm, rules)
    case TakeLock(t) => HasStage(st, t) && st.commands[t].stage.Chosen? && st.lock.Free?
    case LookForIt(t) => HasStage(st, t) && st.commands[t].stage.Holding?
    case WriteIt(t) => HasStage(st, t) && st.commands[t].stage.Absent?
    case Commit(t) => HasStage(st, t) && st.commands[t].stage.Written?
    case Break(t) => HasStage(st, t) && st.commands[t].stage.Locks()
    case CleanUp(t) => HasStage(st, t) && st.commands[t].stage.Decided?
    case Deliver(t) => HasStage(st, t) && st.commands[t].stage.Replying?
    case Die(t) => HasStage(st, t) && !st.commands[t].stage.Over?
    case LogSession(h) => st.lock.Free? && h.origin.LoggedHere?
    case ChangeNets(nets) => true
  }

  function To(st: State, t: nat, stage: Stage): State
    requires t < |st.commands|
  {
    st.(commands := st.commands[t := st.commands[t].(stage := stage)])
  }

  function Client1(st: State, c: nat, phase: Phase): State
    requires c < |st.clients|
  {
    st.(clients := st.clients[c := st.clients[c].(phase := phase)])
  }

  // A new command for a client, which then waits for it.
  function Ask1(st: State, c: nat, confirm: string, first: bool): State
    requires c < |st.clients|
  {
    Client1(st, c, Running(confirm, |st.commands|, first)).(commands := st.commands + [Command(c, confirm, Waiting)])
  }

  function Unlocked(st: State, t: nat): Lock {
    if st.lock == HeldBy(t) then Free else st.lock
  }

  function SlotOf(st: State, t: nat): nat
    requires t < |st.commands|
  {
    if st.commands[t].client < |st.clients| then st.clients[st.commands[t].client].slot else 0
  }

  function Choosing(st: State, t: nat, choice: Choice): State
    requires t < |st.commands| && st.commands[t].stage.Reading?
  {
    var file := st.commands[t].stage.file;
    match choice
    case IntoNet(n) => To(st, t, Chosen(file, InNet(n.id)))
    case IntoAdHoc => To(st, t, Chosen(file, InAdHoc(file.net)))
    case Ask(n) => To(st, t, Decided(file, NeedsConfirmation(n.id)))
    case _ => To(st, t, Decided(file, NotImported))
  }

  function Delivering(st: State, t: nat): State
    requires t < |st.commands| && st.commands[t].stage.Replying?
  {
    var c, o := st.commands[t].client, st.commands[t].stage.outcome;
    var over := To(st, t, Over(st.commands[t].stage.file, o));
    if c < |st.clients| && st.clients[c].phase.Running? && st.clients[c].phase.ticket == t then
      if o.FileMissing? && st.clients[c].phase.first then Client1(over, c, Copying(st.clients[c].phase.confirm))
      else Client1(over, c, Ended(Decide(o)))
    else over
  }

  const NO_FILE: SessionFile := SessionFile("", Amateur, false, "", 0)

  ghost function Do(rules: Rules, st: State, a: Action): State
    requires Enabled(rules, st, a)
  {
    match a
    case StartPush(c, confirm) => if confirm == "" then Client1(st, c, Copying("")) else Ask1(st, c, confirm, true)
    case CopyArrives(c) =>
      Ask1(st.(uploads := st.uploads[st.clients[c].slot := st.clients[c].file]), c, st.clients[c].phase.confirm, false)
    case CopyFails(c, landed) =>
      Client1(if landed then st.(uploads := st.uploads[st.clients[c].slot := st.clients[c].file]) else st, c, Ended(Failed))
    case GiveUp(c) => Client1(st, c, Ended(Failed))
    case Vanish(slot) => st.(uploads := st.uploads - {slot})
    case Open(t) =>
      if SlotOf(st, t) in st.uploads then To(st, t, Reading(st.uploads[SlotOf(st, t)]))
      else To(st, t, Decided(NO_FILE, FileMissing))
    case ChooseNet(t, choice) => Choosing(st, t, choice)
    case TakeLock(t) => To(st, t, Holding(st.commands[t].stage.file, st.commands[t].stage.target)).(lock := HeldBy(t))
    case LookForIt(t) =>
      var s := st.commands[t].stage;
      if Has(st.held, s.target, s.file) then To(st, t, Decided(s.file, AlreadyImported(s.target))).(lock := Unlocked(st, t))
      else To(st, t, Absent(s.file, s.target))
    case WriteIt(t) => To(st, t, Written(st.commands[t].stage.file, st.commands[t].stage.target))
    case Commit(t) =>
      var s := st.commands[t].stage;
      To(st, t, Decided(s.file, Imported(s.target))).(
        lock := Unlocked(st, t), held := st.held + [Held(s.target, s.file.date, s.file.startedAt, PushedBy(t))])
    case Break(t) => To(st, t, Decided(st.commands[t].stage.file, NotImported)).(lock := Unlocked(st, t))
    case CleanUp(t) =>
      var s := st.commands[t].stage;
      var replying := To(st, t, Replying(s.file, s.outcome));
      if s.outcome.NeedsConfirmation? then replying else replying.(uploads := st.uploads - {SlotOf(st, t)})
    case Deliver(t) => Delivering(st, t)
    case Die(t) => To(st, t, Died).(lock := Unlocked(st, t))
    case LogSession(h) => st.(held := st.held + [h])
    case ChangeNets(nets) => st.(nets := nets)
  }

  // Every client idle, nothing in flight; whatever nets and sessions there are
  // were logged there.
  predicate Starts(st: State) {
    && st.commands == [] && st.lock.Free? && st.uploads == map[]
    && (forall i :: 0 <= i < |st.held| ==> st.held[i].origin.LoggedHere?)
    && (forall c :: 0 <= c < |st.clients| ==> st.clients[c].phase.Idle?)
  }

  ghost predicate Leads(rules: Rules, st: State, actions: seq<Action>, end: State)
    decreases |actions|
  {
    if actions == [] then st == end
    else Enabled(rules, st, actions[0]) && Leads(rules, Do(rules, st, actions[0]), actions[1..], end)
  }

  // ---- The invariant ----

  // A pushed session was put where there was none like it.
  predicate NoneTwice(held: seq<Held>) {
    forall i, j :: 0 <= i < j < |held| && SamePlace(held[i], held[j]) ==> held[j].origin.LoggedHere?
  }

  predicate SamePlace(a: Held, b: Held) {
    a.target == b.target && a.date == b.date && a.startedAt == b.startedAt
  }

  // Which files may be at which place: each client's.
  datatype Owner = Owner(slot: nat, file: SessionFile)

  function Owners(clients: seq<Client>): (owners: seq<Owner>)
    ensures |owners| == |clients|
    ensures forall c :: 0 <= c < |clients| ==> owners[c] == Owner(clients[c].slot, clients[c].file)
  {
    seq(|clients|, c requires 0 <= c < |clients| => Owner(clients[c].slot, clients[c].file))
  }

  // Some client that pushes to this place has its session there.
  predicate Kept(owners: seq<Owner>, slot: nat, held: seq<Held>, target: Target) {
    exists o :: o in owners && o.slot == slot && Has(held, target, o.file)
  }

  // What a command's stage says is so.
  predicate StageHolds(st: State, t: nat)
    requires t < |st.commands|
  {
    var c := st.commands[t];
    && c.client < |st.clients|
    && (c.stage.Locks() <==> st.lock == HeldBy(t))
    && (c.stage.Absent? || c.stage.Written? ==> !Has(st.held, c.stage.target, c.stage.file))
    && (c.stage.Reading? || c.stage.Chosen? || c.stage.Locks() ==>
          Owner(st.clients[c.client].slot, c.stage.file) in Owners(st.clients))
    && (c.stage.Settled() && (c.stage.outcome.Imported? || c.stage.outcome.AlreadyImported?) ==>
          && Owner(st.clients[c.client].slot, c.stage.file) in Owners(st.clients)
          && Has(st.held, c.stage.outcome.target, c.stage.file))
    && (c.stage.Settled() && c.stage.outcome.Imported? ==> PutThere(st.held, c.stage.outcome.target, c.stage.file, t))
  }

  predicate PutThere(held: seq<Held>, target: Target, f: SessionFile, t: nat) {
    exists i :: 0 <= i < |held| && IsAt(held[i], target, f) && held[i].origin == PushedBy(t)
  }

  predicate ClientHolds(st: State, c: nat)
    requires c < |st.clients|
  {
    var client := st.clients[c];
    && (client.phase.Running? ==> client.phase.ticket < |st.commands| && st.commands[client.phase.ticket].client == c)
    && (client.phase.Ended? && client.phase.result.Pushed? ==>
          Kept(Owners(st.clients), client.slot, st.held, client.phase.result.target))
  }

  predicate UploadsHold(st: State) {
    forall slot :: slot in st.uploads ==> Owner(slot, st.uploads[slot]) in Owners(st.clients)
  }

  predicate Invariant(st: State) {
    && NoneTwice(st.held) && UploadsHold(st)
    && (forall i :: 0 <= i < |st.held| && st.held[i].origin.PushedBy? ==> st.held[i].origin.ticket < |st.commands|)
    && (st.lock.HeldBy? ==> st.lock.ticket < |st.commands|)
    && (forall t :: 0 <= t < |st.commands| ==> StageHolds(st, t))
    && (forall c :: 0 <= c < |st.clients| ==> ClientHolds(st, c))
  }

  lemma HasMore(held: seq<Held>, h: Held, target: Target, f: SessionFile)
    ensures Has(held, target, f) || IsAt(h, target, f) <==> Has(held + [h], target, f)
  {
    var more := held + [h];
    if Has(held, target, f) {
      var i :| 0 <= i < |held| && IsAt(held[i], target, f);
      assert IsAt(more[i], target, f);
    }
    if IsAt(h, target, f) {
      assert IsAt(more[|held|], target, f);
    }
    if Has(more, target, f) {
      var i :| 0 <= i < |more| && IsAt(more[i], target, f);
      assert i < |held| ==> IsAt(held[i], target, f);
    }
  }

  lemma KeptStays(owners: seq<Owner>, slot: nat, held: seq<Held>, h: Held, target: Target)
    requires Kept(owners, slot, held, target)
    ensures Kept(owners, slot, held + [h], target)
  {
    var o :| o in owners && o.slot == slot && Has(held, target, o.file);
    HasMore(held, h, target, o.file);
  }

  lemma KeptByFile(owners: seq<Owner>, o: Owner, held: seq<Held>, target: Target)
    requires o in owners && Has(held, target, o.file)
    ensures Kept(owners, o.slot, held, target)
  {
  }

  lemma PutThereStays(held: seq<Held>, h: Held, target: Target, f: SessionFile, t: nat)
    requires PutThere(held, target, f, t)
    ensures PutThere(held + [h], target, f, t)
  {
    var i :| 0 <= i < |held| && IsAt(held[i], target, f) && held[i].origin == PushedBy(t);
    assert IsAt((held + [h])[i], target, f);
  }

  // One command moves on; nothing else changes but, at most, the lock it
  // takes or gives up.
  lemma StageMoves(st: State, t: nat, stage: Stage, lock: Lock)
    requires Invariant(st) && t < |st.commands|
    requires lock == st.lock || (st.lock.Free? && lock == HeldBy(t)) || (st.lock == HeldBy(t) && lock.Free?)
    requires StageHolds(To(st, t, stage).(lock := lock), t)
    ensures Invariant(To(st, t, stage).(lock := lock))
  {
    var after := To(st, t, stage).(lock := lock);
    forall k | 0 <= k < |after.commands| ensures StageHolds(after, k) {
      assert StageHolds(st, k);
    }
    forall c | 0 <= c < |after.clients| ensures ClientHolds(after, c) {
      assert ClientHolds(st, c);
    }
  }

  lemma ClientMoves(st: State, c: nat, phase: Phase)
    requires Invariant(st) && c < |st.clients| && ClientHolds(Client1(st, c, phase), c)
    ensures Invariant(Client1(st, c, phase))
  {
    var after := Client1(st, c, phase);
    assert Owners(after.clients) == Owners(st.clients);
    forall k | 0 <= k < |after.commands| ensures StageHolds(after, k) {
      assert StageHolds(st, k);
    }
    forall k | 0 <= k < |after.clients| ensures ClientHolds(after, k) {
      assert ClientHolds(st, k);
    }
  }

  lemma CommandSent(st: State, c: nat, confirm: string, first: bool)
    requires Invariant(st) && c < |st.clients|
    ensures Invariant(Ask1(st, c, confirm, first))
  {
    var after := Ask1(st, c, confirm, first);
    assert Owners(after.clients) == Owners(st.clients);
    forall k | 0 <= k < |after.commands| ensures StageHolds(after, k) {
      if k < |st.commands| {
        assert StageHolds(st, k);
      }
    }
    forall k | 0 <= k < |after.clients| ensures ClientHolds(after, k) {
      assert ClientHolds(st, k);
    }
  }

  lemma UploadsChange(st: State, uploads: map<nat, SessionFile>)
    requires Invariant(st) && UploadsHold(st.(uploads := uploads))
    ensures Invariant(st.(uploads := uploads))
  {
    var after := st.(uploads := uploads);
    forall k | 0 <= k < |after.commands| ensures StageHolds(after, k) {
      assert StageHolds(st, k);
    }
    forall k | 0 <= k < |after.clients| ensures ClientHolds(after, k) {
      assert ClientHolds(st, k);
    }
  }

  lemma UploadArrives(st: State, c: nat)
    requires Invariant(st) && c < |st.clients|
    ensures Invariant(st.(uploads := st.uploads[st.clients[c].slot := st.clients[c].file]))
  {
    assert Owners(st.clients)[c] == Owner(st.clients[c].slot, st.clients[c].file);
    UploadsChange(st, st.uploads[st.clients[c].slot := st.clients[c].file]);
  }

  lemma NetsChange(st: State, nets: seq<Net>)
    requires Invariant(st)
    ensures Invariant(st.(nets := nets))
  {
    var after := st.(nets := nets);
    forall k | 0 <= k < |after.commands| ensures StageHolds(after, k) {
      assert StageHolds(st, k);
    }
    forall k | 0 <= k < |after.clients| ensures ClientHolds(after, k) {
      assert ClientHolds(st, k);
    }
  }

  // A session more, with no one in the middle of importing.
  lemma SessionLogged(st: State, h: Held)
    requires Invariant(st) && st.lock.Free? && h.origin.LoggedHere?
    ensures Invariant(st.(held := st.held + [h]))
  {
    var after := st.(held := st.held + [h]);
    forall k | 0 <= k < |after.commands| ensures StageHolds(after, k) {
      assert StageHolds(st, k);
      if st.commands[k].stage.Settled() {
        HeldStays(st, h, k);
      }
    }
    forall k | 0 <= k < |after.clients| ensures ClientHolds(after, k) {
      assert ClientHolds(st, k);
      if st.clients[k].phase.Ended? && st.clients[k].phase.result.Pushed? {
        KeptStays(Owners(st.clients), st.clients[k].slot, st.held, h, st.clients[k].phase.result.target);
      }
    }
  }

  // What a settled command says stays so.
  lemma HeldStays(st: State, h: Held, t: nat)
    requires t < |st.commands| && StageHolds(st, t) && st.commands[t].stage.Settled()
    ensures
      var c := st.commands[t];
      && (c.stage.outcome.Imported? || c.stage.outcome.AlreadyImported? ==>
            Has(st.held + [h], c.stage.outcome.target, c.stage.file))
      && (c.stage.outcome.Imported? ==> PutThere(st.held + [h], c.stage.outcome.target, c.stage.file, t))
  {
    var c := st.commands[t];
    if c.stage.outcome.Imported? || c.stage.outcome.AlreadyImported? {
      HasMore(st.held, h, c.stage.outcome.target, c.stage.file);
    }
    if c.stage.outcome.Imported? {
      PutThereStays(st.held, h, c.stage.outcome.target, c.stage.file, t);
    }
  }

  // A session imported: there was none like it, and now there is one.
  lemma SessionCommitted(st: State, t: nat)
    requires Invariant(st) && t < |st.commands| && st.commands[t].stage.Written?
    ensures
      var s := st.commands[t].stage;
      Invariant(To(st, t, Decided(s.file, Imported(s.target))).(
                  lock := Free, held := st.held + [Held(s.target, s.file.date, s.file.startedAt, PushedBy(t))]))
  {
    var s := st.commands[t].stage;
    var h := Held(s.target, s.file.date, s.file.startedAt, PushedBy(t));
    var after := To(st, t, Decided(s.file, Imported(s.target))).(lock := Free, held := st.held + [h]);
    assert StageHolds(st, t);
    NewIsAlone(st.held, h, s.file);
    forall k | 0 <= k < |after.commands| ensures StageHolds(after, k) {
      assert StageHolds(st, k);
      if k == t {
        HasMore(st.held, h, s.target, s.file);
        assert IsAt(after.held[|st.held|], s.target, s.file);
      } else if st.commands[k].stage.Settled() {
        HeldStays(st, h, k);
      }
    }
    forall k | 0 <= k < |after.clients| ensures ClientHolds(after, k) {
      assert ClientHolds(st, k);
      if st.clients[k].phase.Ended? && st.clients[k].phase.result.Pushed? {
        KeptStays(Owners(st.clients), st.clients[k].slot, st.held, h, st.clients[k].phase.result.target);
      }
    }
  }

  lemma NewIsAlone(held: seq<Held>, h: Held, f: SessionFile)
    requires NoneTwice(held) && IsAt(h, h.target, f) && !Has(held, h.target, f)
    ensures NoneTwice(held + [h])
  {
    var more := held + [h];
    forall i, j | 0 <= i < j < |more| && SamePlace(more[i], more[j]) ensures more[j].origin.LoggedHere? {
      if j == |held| {
        assert IsAt(held[i], h.target, f);
      }
    }
  }

  lemma ReplyDelivered(st: State, t: nat)
    requires Invariant(st) && t < |st.commands| && st.commands[t].stage.Replying?
    ensures Invariant(Delivering(st, t))
  {
    var file, o, c := st.commands[t].stage.file, st.commands[t].stage.outcome, st.commands[t].client;
    assert StageHolds(st, t);
    StageMoves(st, t, Over(file, o), st.lock);
    var over := To(st, t, Over(file, o));
    assert over.(lock := st.lock) == over;
    if c < |st.clients| && st.clients[c].phase.Running? && st.clients[c].phase.ticket == t {
      if o.Imported? || o.AlreadyImported? {
        assert Owner(st.clients[c].slot, file) in Owners(st.clients) && Has(st.held, o.target, file);
        KeptByFile(Owners(st.clients), Owner(st.clients[c].slot, file), st.held, o.target);
        assert Owners(Client1(over, c, Ended(Decide(o))).clients) == Owners(st.clients);
      }
      ClientMoves(over, c, if o.FileMissing? && st.clients[c].phase.first then Copying(st.clients[c].phase.confirm)
                           else Ended(Decide(o)));
    }
  }

  // One step of a command, the lock as it leaves it.
  lemma CommandSteps(rules: Rules, st: State, a: Action)
    requires Invariant(st) && Enabled(rules, st, a)
    requires a.Open? || a.ChooseNet? || a.TakeLock? || a.LookForIt? || a.WriteIt? || a.Break? || a.Die?
    ensures Invariant(Do(rules, st, a))
  {
    var t, after := a.t, Do(rules, st, a);
    assert StageHolds(st, t);
    assert after == To(st, t, after.commands[t].stage).(lock := after.lock);
    StageMoves(st, t, after.commands[t].stage, after.lock);
  }

  lemma UploadCleared(st: State, t: nat)
    requires Invariant(st) && t < |st.commands| && st.commands[t].stage.Decided?
    ensures Invariant(To(st, t, Replying(st.commands[t].stage.file, st.commands[t].stage.outcome)))
    ensures Invariant(To(st, t, Replying(st.commands[t].stage.file, st.commands[t].stage.outcome)).(
                        uploads := st.uploads - {SlotOf(st, t)}))
  {
    var s := st.commands[t].stage;
    assert StageHolds(st, t);
    StageMoves(st, t, Replying(s.file, s.outcome), st.lock);
    var replying := To(st, t, Replying(s.file, s.outcome));
    assert replying.(lock := st.lock) == replying;
    UploadsChange(replying, st.uploads - {SlotOf(st, t)});
  }

  lemma StepKeeps(rules: Rules, st: State, a: Action)
    requires Invariant(st) && Enabled(rules, st, a)
    ensures Invariant(Do(rules, st, a))
  {
    match a
    case StartPush(c, confirm) =>
      if confirm == "" { ClientMoves(st, c, Copying("")); } else { CommandSent(st, c, confirm, true); }
    case CopyArrives(c) =>
      UploadArrives(st, c);
      CommandSent(st.(uploads := st.uploads[st.clients[c].slot := st.clients[c].file]), c, st.clients[c].phase.confirm, false);
    case CopyFails(c, landed) =>
      UploadArrives(st, c);
      ClientMoves(st.(uploads := st.uploads[st.clients[c].slot := st.clients[c].file]), c, Ended(Failed));
      ClientMoves(st, c, Ended(Failed));
    case GiveUp(c) => ClientMoves(st, c, Ended(Failed));
    case Vanish(slot) => UploadsChange(st, st.uploads - {slot});
    case Commit(t) =>
      assert StageHolds(st, t);
      SessionCommitted(st, t);
    case CleanUp(t) => UploadCleared(st, t);
    case Deliver(t) => ReplyDelivered(st, t);
    case LogSession(h) => SessionLogged(st, h);
    case ChangeNets(nets) => NetsChange(st, nets);
    case _ => CommandSteps(rules, st, a);
  }

  lemma {:induction false} RunKeeps(rules: Rules, st: State, actions: seq<Action>, end: State)
    requires Invariant(st) && Leads(rules, st, actions, end)
    ensures Invariant(end)
    decreases |actions|
  {
    if actions != [] {
      StepKeeps(rules, st, actions[0]);
      RunKeeps(rules, Do(rules, st, actions[0]), actions[1..], end);
    }
  }

  lemma ReachedKeeps(rules: Rules, start: State, actions: seq<Action>, end: State)
    requires Starts(start) && Leads(rules, start, actions, end)
    ensures Invariant(end)
  {
    RunKeeps(rules, start, actions, end);
  }

  // ---- What follows ----

  // Where a net has two sessions of one date and start, the later was logged
  // there: nothing is pushed into a net that has it.
  lemma PushedNeverRepeats(rules: Rules, start: State, actions: seq<Action>, end: State, i: nat, j: nat)
    requires Starts(start) && Leads(rules, start, actions, end)
    requires i < j < |end.held| && SamePlace(end.held[i], end.held[j])
    ensures end.held[j].origin.LoggedHere?
  {
    ReachedKeeps(rules, start, actions, end);
  }

  // Two commands never both answer that they imported one session into one
  // net.
  lemma ImportedOnce(rules: Rules, start: State, actions: seq<Action>, end: State, t: nat, u: nat)
    requires Starts(start) && Leads(rules, start, actions, end) && t < |end.commands| && u < |end.commands|
    requires var a, b := end.commands[t].stage, end.commands[u].stage;
             && a.Settled() && b.Settled() && a.outcome.Imported? && b.outcome.Imported?
             && a.outcome.target == b.outcome.target
             && a.file.date == b.file.date && a.file.startedAt == b.file.startedAt
    ensures t == u
  {
    ReachedKeeps(rules, start, actions, end);
    var a, b := end.commands[t].stage, end.commands[u].stage;
    assert StageHolds(end, t) && StageHolds(end, u);
    var i :| 0 <= i < |end.held| && IsAt(end.held[i], a.outcome.target, a.file) && end.held[i].origin == PushedBy(t);
    var j :| 0 <= j < |end.held| && IsAt(end.held[j], b.outcome.target, b.file) && end.held[j].origin == PushedBy(u);
    assert SamePlace(end.held[i], end.held[j]) && SamePlace(end.held[j], end.held[i]);
  }

  // A client told it was pushed was told so of a session pushed to its place.
  lemma PushedIsKept(rules: Rules, start: State, actions: seq<Action>, end: State, c: nat)
    requires Starts(start) && Leads(rules, start, actions, end) && c < |end.clients|
    requires end.clients[c].phase.Ended? && end.clients[c].phase.result.Pushed?
    ensures Kept(Owners(end.clients), end.clients[c].slot, end.held, end.clients[c].phase.result.target)
  {
    ReachedKeeps(rules, start, actions, end);
    assert ClientHolds(end, c);
  }

  // ---- Two sessions under one name ----

  predicate SameMoment(a: SessionFile, b: SessionFile) {
    a.date == b.date && a.startedAt == b.startedAt
  }

  // Whoever else pushes to this client's place pushes the same session.
  predicate HasOwnPlace(clients: seq<Client>, c: nat)
    requires c < |clients|
  {
    forall d :: 0 <= d < |clients| && clients[d].slot == clients[c].slot ==> SameMoment(clients[d].file, clients[c].file)
  }

  predicate ToldPushed(st: State, c: nat, target: Target) {
    c < |st.clients| && st.clients[c].phase == Ended(Pushed(target))
  }

  // Told that its session is somewhere it is not.
  predicate Misled(st: State, c: nat) {
    && c < |st.clients| && st.clients[c].phase.Ended? && st.clients[c].phase.result.Pushed?
    && !Has(st.held, st.clients[c].phase.result.target, st.clients[c].file)
  }

  lemma {:induction false} OwnersStay(rules: Rules, st: State, actions: seq<Action>, end: State)
    requires Leads(rules, st, actions, end)
    ensures Owners(end.clients) == Owners(st.clients)
    decreases |actions|
  {
    if actions != [] {
      var next := Do(rules, st, actions[0]);
      assert Owners(next.clients) == Owners(st.clients);
      OwnersStay(rules, next, actions[1..], end);
    }
  }

  // A client told it was pushed has its session in the net it was told of, if
  // its place is its own.
  lemma PushedIsThere(rules: Rules, start: State, actions: seq<Action>, end: State, c: nat)
    requires Starts(start) && Leads(rules, start, actions, end)
    requires c < |start.clients| && HasOwnPlace(start.clients, c)
    ensures !Misled(end, c)
  {
    OwnersStay(rules, start, actions, end);
    var owners := Owners(start.clients);
    if c < |end.clients| && end.clients[c].phase.Ended? && end.clients[c].phase.result.Pushed? {
      PushedIsKept(rules, start, actions, end, c);
      assert owners[c] == Owner(end.clients[c].slot, end.clients[c].file);
      var o :| o in owners && o.slot == end.clients[c].slot && Has(end.held, end.clients[c].phase.result.target, o.file);
      var d :| 0 <= d < |owners| && owners[d] == o;
      assert SameMoment(start.clients[d].file, start.clients[c].file);
      var i :| 0 <= i < |end.held| && IsAt(end.held[i], end.clients[c].phase.result.target, o.file);
      assert IsAt(end.held[i], end.clients[c].phase.result.target, end.clients[c].file);
    }
  }

  // Two clients with different sessions and one place: one's upload replaces
  // the other's, and the first import answers for the wrong one.
  lemma MisledRun(clients: seq<Client>, c: nat, d: nat) returns (rules: Rules, start: State, actions: seq<Action>, end: State)
    requires forall k :: 0 <= k < |clients| ==> clients[k].phase.Idle?
    requires c < |clients| && d < |clients| && clients[c].slot == clients[d].slot
    requires !SameMoment(clients[c].file, clients[d].file)
    ensures Starts(start) && start.clients == clients && Leads(rules, start, actions, end) && Misled(end, c)
  {
    var f := clients[d].file;
    var n := Net(1, f.net, f.service, false);
    var choice := if f.adHoc then IntoAdHoc else IntoNet(n);
    var target := if f.adHoc then InAdHoc(f.net) else InNet(1);
    rules := Rules((a, b) => true, (a, b) => true, m => true);
    start := State([n], [], map[], [], Free, clients);
    var s2 := Uploaded(start, c);
    var s4 := Uploaded(s2, d);
    var rest;
    rest, end := ImportRuns(rules, s4, 0, c, choice, f, target);
    var a2 := [StartPush(d, "")] + ([CopyArrives(d)] + rest);
    Uploads(rules, s2, d, rest, end);
    Uploads(rules, start, c, a2, end);
    actions := [StartPush(c, "")] + ([CopyArrives(c)] + a2);
  }

  // What the server does about one command.
  predicate IsFor(a: Action, t: nat) {
    && (a.Open? || a.ChooseNet? || a.TakeLock? || a.LookForIt? || a.WriteIt? || a.Commit? || a.CleanUp? || a.Deliver?)
    && a.t == t
  }

  predicate AllFor(actions: seq<Action>, t: nat) {
    forall i :: 0 <= i < |actions| ==> IsFor(actions[i], t)
  }

  lemma ThenFor(rules: Rules, st: State, t: nat, a: Action, next: State, rest: seq<Action>, end: State)
    requires Enabled(rules, st, a) && next == Do(rules, st, a) && Leads(rules, next, rest, end)
    requires IsFor(a, t) && AllFor(rest, t)
    ensures Leads(rules, st, [a] + rest, end) && AllFor([a] + rest, t)
  {
    Then(rules, st, a, next, rest, end);
  }

  // A command, with the upload it is for as it is, goes through.
  lemma ImportRuns(rules: Rules, st: State, t: nat, c: nat, choice: Choice, f: SessionFile, target: Target)
    returns (actions: seq<Action>, end: State)
    requires t < |st.commands| && st.commands[t].stage.Waiting? && st.commands[t].client == c && st.lock.Free?
    requires c < |st.clients| && st.clients[c].phase.Running? && st.clients[c].phase.ticket == t
    requires st.clients[c].slot in st.uploads && st.uploads[st.clients[c].slot] == f && !Has(st.held, target, f)
    requires Fair(choice, st.nets, f, st.commands[t].confirm, rules)
    requires (choice.IntoNet? && target == InNet(choice.net.id)) || (choice.IntoAdHoc? && target == InAdHoc(f.net))
    ensures Leads(rules, st, actions, end) && AllFor(actions, t)
    ensures ToldPushed(end, c, target) && end.clients[c].file == st.clients[c].file
    ensures end.held == st.held + [Held(target, f.date, f.startedAt, PushedBy(t))]
  {
    var chosen := To(st, t, Chosen(f, target));
    var last;
    last, end := PushReplied(rules, WithIt(chosen, t, f, target), t, c, Imported(target));
    var rest := PushImports(rules, chosen, t, f, target, last, end);
    actions := Chooses(rules, st, t, f, choice, chosen, rest, end);
  }

  lemma Chooses(rules: Rules, st: State, t: nat, f: SessionFile, choice: Choice, next: State, rest: seq<Action>, end: State)
    returns (actions: seq<Action>)
    requires t < |st.commands| && st.commands[t].stage.Waiting?
    requires SlotOf(st, t) in st.uploads && st.uploads[SlotOf(st, t)] == f && Fair(choice, st.nets, f, st.commands[t].confirm, rules)
    requires next == Choosing(To(st, t, Reading(f)), t, choice) && Leads(rules, next, rest, end) && AllFor(rest, t)
    ensures Leads(rules, st, actions, end) && AllFor(actions, t)
  {
    var reading := To(st, t, Reading(f));
    ThenFor(rules, reading, t, ChooseNet(t, choice), next, rest, end);
    actions := [Open(t)] + ([ChooseNet(t, choice)] + rest);
    ThenFor(rules, st, t, Open(t), reading, [ChooseNet(t, choice)] + rest, end);
  }

  // A client's session arrives among the uploads, and its import is asked for.
  function Uploaded(st: State, c: nat): State
    requires c < |st.clients|
  {
    var copying := Client1(st, c, Copying(""));
    Ask1(copying.(uploads := st.uploads[st.clients[c].slot := st.clients[c].file]), c, "", false)
  }

  lemma Uploads(rules: Rules, st: State, c: nat, rest: seq<Action>, end: State)
    requires c < |st.clients| && (st.clients[c].phase.Idle? || st.clients[c].phase.Ended?) && Leads(rules, Uploaded(st, c), rest, end)
    ensures Leads(rules, st, [StartPush(c, "")] + ([CopyArrives(c)] + rest), end)
  {
    var copying := Client1(st, c, Copying(""));
    Then(rules, copying, CopyArrives(c), Uploaded(st, c), rest, end);
    Then(rules, st, StartPush(c, ""), copying, [CopyArrives(c)] + rest, end);
  }

  ghost predicate CanBeMisled(clients: seq<Client>, c: nat) {
    exists rules, start, actions, end ::
      Starts(start) && start.clients == clients && Leads(rules, start, actions, end) && Misled(end, c)
  }

  // No run misleads a client exactly if its place is its own.
  lemma MisledIffPlaceIsShared(clients: seq<Client>, c: nat)
    requires c < |clients| && forall k :: 0 <= k < |clients| ==> clients[k].phase.Idle?
    ensures CanBeMisled(clients, c) <==> !HasOwnPlace(clients, c)
  {
    if CanBeMisled(clients, c) {
      var rules, start, actions, end :|
        Starts(start) && start.clients == clients && Leads(rules, start, actions, end) && Misled(end, c);
      if HasOwnPlace(clients, c) {
        PushedIsThere(rules, start, actions, end, c);
      }
    }
    if !HasOwnPlace(clients, c) {
      var d :| 0 <= d < |clients| && clients[d].slot == clients[c].slot && !SameMoment(clients[d].file, clients[c].file);
      var rules, start, actions, end := MisledRun(clients, c, d);
    }
  }

  // ---- A push that goes through ----

  lemma Then(rules: Rules, st: State, a: Action, next: State, rest: seq<Action>, end: State)
    requires Enabled(rules, st, a) && next == Do(rules, st, a) && Leads(rules, next, rest, end)
    ensures Leads(rules, st, [a] + rest, end)
  {
    assert ([a] + rest)[1..] == rest;
  }

  // With nothing in its way, a push into a net of the same name that does not
  // have the session ends with the session there and the client told so.
  lemma PushGoesThrough(rules: Rules, start: State, n: Net)
    requires Starts(start) && |start.clients| == 1 && n in start.nets
    requires var f := start.clients[0].file;
             && !f.adHoc && Recurring(n, f.service) && rules.mayLog(n) && rules.same(n.name, f.net)
             && !Has(start.held, InNet(n.id), f)
    ensures exists actions, end ::
      Leads(rules, start, actions, end) && ToldPushed(end, 0, InNet(n.id)) && Has(end.held, InNet(n.id), start.clients[0].file)
  {
    var f, target := start.clients[0].file, InNet(n.id);
    var rest, end := ImportRuns(rules, Uploaded(start, 0), 0, 0, IntoNet(n), f, target);
    assert IsAt(end.held[|start.held|], target, f);
    Uploads(rules, start, 0, rest, end);
  }

  // A command having imported the session.
  function WithIt(st: State, t: nat, f: SessionFile, target: Target): State
    requires t < |st.commands|
  {
    To(st, t, Decided(f, Imported(target))).(held := st.held + [Held(target, f.date, f.startedAt, PushedBy(t))])
  }

  // The client still waiting for a command is told what it came to.
  lemma PushReplied(rules: Rules, st: State, t: nat, c: nat, o: Outcome) returns (actions: seq<Action>, end: State)
    requires t < |st.commands| && st.commands[t].stage.Decided? && st.commands[t].stage.outcome == o
    requires !o.FileMissing? && st.commands[t].client == c
    requires c < |st.clients| && st.clients[c].phase.Running? && st.clients[c].phase.ticket == t
    ensures Leads(rules, st, actions, end) && AllFor(actions, t) && end.held == st.held
    ensures |end.clients| == |st.clients| && end.clients[c] == st.clients[c].(phase := Ended(Decide(o)))
    ensures o.NeedsConfirmation? ==> end.uploads == st.uploads && end.nets == st.nets && end.lock == st.lock
  {
    var replying := Do(rules, st, CleanUp(t));
    end := Delivering(replying, t);
    assert Leads(rules, end, [], end);
    ThenFor(rules, replying, t, Deliver(t), end, [], end);
    assert [Deliver(t)] + [] == [Deliver(t)];
    ThenFor(rules, st, t, CleanUp(t), replying, [Deliver(t)], end);
    actions := [CleanUp(t)] + [Deliver(t)];
  }

  lemma PushImports(rules: Rules, st: State, t: nat, f: SessionFile, target: Target, rest: seq<Action>, end: State)
    returns (actions: seq<Action>)
    requires t < |st.commands| && st.commands[t].stage == Chosen(f, target) && st.lock.Free? && !Has(st.held, target, f)
    requires Leads(rules, WithIt(st, t, f, target), rest, end) && AllFor(rest, t)
    ensures Leads(rules, st, actions, end) && AllFor(actions, t)
  {
    var s5 := To(st, t, Holding(f, target)).(lock := HeldBy(t));
    var s6 := To(s5, t, Absent(f, target));
    var s7 := To(s5, t, Written(f, target));
    ThenFor(rules, s7, t, Commit(t), WithIt(st, t, f, target), rest, end);
    var a6 := [Commit(t)] + rest;
    ThenFor(rules, s6, t, WriteIt(t), s7, a6, end);
    var a5 := [WriteIt(t)] + a6;
    ThenFor(rules, s5, t, LookForIt(t), s6, a5, end);
    actions := [TakeLock(t)] + ([LookForIt(t)] + a5);
    ThenFor(rules, st, t, TakeLock(t), s5, [LookForIt(t)] + a5, end);
  }
}
