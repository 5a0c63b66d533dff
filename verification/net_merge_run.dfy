// Planning a merge and carrying it out, over the database operations it uses.
module NetMerge {
  import opened CheckInKeys
  import opened NetAccount
  import opened NetDatabase
  import opened NetDetails
  import opened NetEntries
  import opened NetListing
  import opened NetMatching
  import opened NetRemerging

  // ---- Planning ----

  datatype Plan = Plan(sessions: seq<MergeSession>, newSaved: nat)

  // Keys made so far, by session.
  predicate Remembers(memo: map<int, seq<string>>, lists: map<int, seq<CheckIn>>) {
    forall id :: id in memo ==> id in lists && memo[id] == Sort(Keys(lists[id]))
  }

  method KeysFor(id: int, lists: map<int, seq<CheckIn>>, memo: map<int, seq<string>>)
    returns (keys: seq<string>, more: map<int, seq<string>>)
    requires id in lists && Remembers(memo, lists)
    ensures keys == Sort(Keys(lists[id])) && Remembers(more, lists)
  {
    more := memo;
    if id !in more {
      more := more[id := Sort(Keys(lists[id]))];
    }
    keys := more[id];
  }

  // ---- Which callsigns' check-ins differ ----

  function CallsignOf(c: CheckIn): string {
    Upper(c.callsign)
  }

  // The first check-in of each callsign, by its key.
  function FirstKeys(log: seq<CheckIn>): map<string, string> {
    if log == [] then map[]
    else
      var before, last := FirstKeys(log[..|log| - 1]), log[|log| - 1];
      if CallsignOf(last) in before then before else before[CallsignOf(last) := Key(last)]
  }

  predicate DistinctCallsigns(log: seq<CheckIn>) {
    forall i, j :: 0 <= i < j < |log| ==> CallsignOf(log[i]) != CallsignOf(log[j])
  }

  // With one check-in to a callsign, the map holds each one's key.
  lemma {:induction false} FirstKeysHold(log: seq<CheckIn>)
    requires DistinctCallsigns(log)
    ensures forall c :: c in log ==> CallsignOf(c) in FirstKeys(log) && FirstKeys(log)[CallsignOf(c)] == Key(c)
    ensures forall k :: k in FirstKeys(log) ==> exists c :: c in log && CallsignOf(c) == k
  {
    if log != [] {
      var before, last := log[..|log| - 1], log[|log| - 1];
      FirstKeysHold(before);
      assert log == before + [last];
      assert CallsignOf(last) !in FirstKeys(before);
      forall k | k in FirstKeys(log) ensures exists c :: c in log && CallsignOf(c) == k {
        if k == CallsignOf(last) {
          assert last in log;
        } else {
          var c :| c in before && CallsignOf(c) == k;
          assert c in log;
        }
      }
    }
  }

  // What the three lists say, for logs with one check-in to a callsign.
  ghost predicate Describes(changes: Changes, file: seq<CheckIn>, here: seq<CheckIn>) {
    && (forall s :: s in changes.onlyInFile <==> HasCallsign(file, s) && !HasCallsign(here, s))
    && (forall s :: s in changes.onlyHere <==> HasCallsign(here, s) && !HasCallsign(file, s))
    && (forall s :: s in changes.changed <==>
          exists a, b :: a in file && b in here && CallsignOf(a) == CallsignOf(b) == s && Key(a) != Key(b))
    && IsSorted(changes.changed) && IsSorted(changes.onlyInFile) && IsSorted(changes.onlyHere)
  }

  predicate HasCallsign(log: seq<CheckIn>, callsign: string) {
    exists c :: c in log && CallsignOf(c) == callsign
  }

  // Some check-in of the file differs from the one here.
  predicate ChangedAmong(file: seq<CheckIn>, keys: map<string, string>, callsign: string) {
    callsign in keys && exists c :: c in file && CallsignOf(c) == callsign && Key(c) != keys[callsign]
  }

  method DescribeCheckInChanges(file: seq<CheckIn>, here: seq<CheckIn>) returns (changes: Changes)
    ensures DistinctCallsigns(file) && DistinctCallsigns(here) ==> Describes(changes, file, here)
  {
    var keys: map<string, string> := map[];
    for i := 0 to |here|
      invariant keys == FirstKeys(here[..i])
    {
      assert here[..i + 1][..i] == here[..i];
      if CallsignOf(here[i]) !in keys {
        keys := keys[CallsignOf(here[i]) := Key(here[i])];
      }
    }
    assert here[..|here|] == here;
    var changed, onlyInFile, left := CompareWith(file, keys);
    var onlyHere: seq<string> := [];
    var rest := left.Keys;
    while rest != {}
      invariant forall s :: s in left <==> s in rest || s in onlyHere
      decreases |rest|
    {
      var s :| s in rest;
      rest := rest - {s};
      onlyHere := onlyHere + [s];
    }
    changes := Changes(Sort(changed), Sort(onlyInFile), Sort(onlyHere));
    if DistinctCallsigns(file) && DistinctCallsigns(here) {
      CompareAllCompares(file, keys);
      ComparedDescribes(file, here, keys, changed, onlyInFile, onlyHere);
    }
  }

  datatype Comparison = Comparison(changed: seq<string>, onlyInFile: seq<string>, left: map<string, string>)

  // One more of the file's check-ins against the keys here not yet met.
  function Compare(c: Comparison, checkIn: CheckIn): Comparison {
    var callsign := CallsignOf(checkIn);
    if callsign !in c.left then c.(onlyInFile := c.onlyInFile + [callsign])
    else c.(changed := if c.left[callsign] != Key(checkIn) then c.changed + [callsign] else c.changed,
            left := map s | s in c.left && s != callsign :: c.left[s])
  }

  function CompareAll(file: seq<CheckIn>, keys: map<string, string>): Comparison {
    if file == [] then Comparison([], [], keys)
    else Compare(CompareAll(file[..|file| - 1], keys), file[|file| - 1])
  }

  method CompareWith(file: seq<CheckIn>, keys: map<string, string>)
    returns (changed: seq<string>, onlyInFile: seq<string>, left: map<string, string>)
    ensures Comparison(changed, onlyInFile, left) == CompareAll(file, keys)
  {
    changed, onlyInFile, left := [], [], keys;
    for i := 0 to |file|
      invariant Comparison(changed, onlyInFile, left) == CompareAll(file[..i], keys)
    {
      assert file[..i + 1][..i] == file[..i];
      var callsign := CallsignOf(file[i]);
      if callsign !in left {
        onlyInFile := onlyInFile + [callsign];
      } else {
        if left[callsign] != Key(file[i]) {
          changed := changed + [callsign];
        }
        left := map s | s in left && s != callsign :: left[s];
      }
    }
    assert file[..|file|] == file;
  }

  ghost predicate Compares(c: Comparison, file: seq<CheckIn>, keys: map<string, string>) {
    && (forall s :: s in c.onlyInFile <==> HasCallsign(file, s) && s !in keys)
    && (forall s :: s in c.changed <==> ChangedAmong(file, keys, s))
    && (forall s :: s in c.left <==> s in keys && !HasCallsign(file, s))
    && (forall s :: s in c.left ==> c.left[s] == keys[s])
  }

  lemma {:induction false} CompareAllCompares(file: seq<CheckIn>, keys: map<string, string>)
    requires DistinctCallsigns(file)
    ensures Compares(CompareAll(file, keys), file, keys)
  {
    if file != [] {
      var before, last := file[..|file| - 1], file[|file| - 1];
      CompareAllCompares(before, keys);
      assert !HasCallsign(before, CallsignOf(last));
      assert before + [last] == file;
      ComparesOneMore(CompareAll(before, keys), before, last, keys);
    }
  }

  lemma ComparesOneMore(c: Comparison, before: seq<CheckIn>, last: CheckIn, keys: map<string, string>)
    requires Compares(c, before, keys) && !HasCallsign(before, CallsignOf(last))
    ensures Compares(Compare(c, last), before + [last], keys)
  {
    forall s {
      OneMoreCallsign(before, last, keys, s);
    }
  }

  lemma OneMoreCallsign(before: seq<CheckIn>, last: CheckIn, keys: map<string, string>, s: string)
    ensures HasCallsign(before + [last], s) <==> HasCallsign(before, s) || CallsignOf(last) == s
    ensures ChangedAmong(before + [last], keys, s)
       <==> ChangedAmong(before, keys, s) || (s == CallsignOf(last) && s in keys && Key(last) != keys[s])
  {
    var file := before + [last];
    assert last in file && forall c :: c in file <==> c in before || c == last;
  }

  lemma SortHolds(list: seq<string>)
    ensures IsSorted(Sort(list)) && forall s :: s in Sort(list) <==> s in list
  {
    SortSorts(list);
    forall s ensures s in Sort(list) <==> s in list {
      assert s in Sort(list) <==> s in multiset(Sort(list));
    }
  }

  lemma ComparedDescribes(file: seq<CheckIn>, here: seq<CheckIn>, keys: map<string, string>, changed: seq<string>,
                          onlyInFile: seq<string>, onlyHere: seq<string>)
    requires DistinctCallsigns(file) && DistinctCallsigns(here) && keys == FirstKeys(here)
    requires forall s :: s in onlyInFile <==> HasCallsign(file, s) && s !in keys
    requires forall s :: s in changed <==> ChangedAmong(file, keys, s)
    requires forall s :: s in onlyHere <==> s in keys && !HasCallsign(file, s)
    ensures Describes(Changes(Sort(changed), Sort(onlyInFile), Sort(onlyHere)), file, here)
  {
    FirstKeysHold(here);
    SortHolds(changed);
    SortHolds(onlyInFile);
    SortHolds(onlyHere);
    forall s ensures s in keys <==> HasCallsign(here, s) {
    }
    forall s ensures s in changed <==>
        exists a, b :: a in file && b in here && CallsignOf(a) == CallsignOf(b) == s && Key(a) != Key(b)
    {
      if ChangedAmong(file, keys, s) {
        var a :| a in file && CallsignOf(a) == s && Key(a) != keys[s];
        var b :| b in here && CallsignOf(b) == s;
      }
    }
  }

  // ---- When the check-ins differ ----

  predicate PlainCallsigns(log: seq<CheckIn>) {
    forall c :: c in log ==> SEPARATOR !in c.callsign
  }

  lemma KeyCallsign(a: CheckIn, b: CheckIn)
    requires SEPARATOR !in a.callsign && SEPARATOR !in b.callsign && Key(a) == Key(b)
    ensures CallsignOf(a) == CallsignOf(b)
  {
    KeyParts(a);
    KeyParts(b);
    UpperPlain(a.callsign);
    UpperPlain(b.callsign);
    FieldTells(Upper(a.callsign), Upper(a.name) + [SEPARATOR] + AfterName(a),
               Upper(b.callsign), Upper(b.name) + [SEPARATOR] + AfterName(b));
  }

  predicate NoRepeats(s: seq<string>) {
    forall i, j :: 0 <= i < j < |s| ==> s[i] != s[j]
  }

  lemma {:induction false} CountsOnce(s: seq<string>, x: string)
    requires NoRepeats(s)
    ensures multiset(s)[x] == if x in s then 1 else 0
  {
    if s != [] {
      CountsOnce(s[1..], x);
      assert s == [s[0]] + s[1..];
    }
  }

  lemma KeysRepeatNot(log: seq<CheckIn>)
    requires DistinctCallsigns(log) && PlainCallsigns(log)
    ensures NoRepeats(Keys(log))
  {
    forall i, j | 0 <= i < j < |log| ensures Keys(log)[i] != Keys(log)[j] {
      if Key(log[i]) == Key(log[j]) {
        KeyCallsign(log[i], log[j]);
      }
    }
  }

  // With one check-in to a callsign in either log, the check-ins differ
  // exactly when one of the lists has something in it.
  lemma DiffersIffDescribed(changes: Changes, file: seq<CheckIn>, here: seq<CheckIn>)
    requires DistinctCallsigns(file) && DistinctCallsigns(here) && PlainCallsigns(file) && PlainCallsigns(here)
    requires Describes(changes, file, here)
    ensures !SameCheckIns(file, here) <==> changes.changed != [] || changes.onlyInFile != [] || changes.onlyHere != []
  {
    SameCheckInsMeans(file, here);
    if changes.changed == [] && changes.onlyInFile == [] && changes.onlyHere == [] {
      NoneListed(changes, file, here);
    }
    if SameCheckIns(file, here) {
      SameMeansNoneListed(changes, file, here);
      HasIfSome(changes.changed);
      HasIfSome(changes.onlyInFile);
      HasIfSome(changes.onlyHere);
    }
  }

  lemma HasIfSome(list: seq<string>)
    ensures list != [] ==> exists s :: s in list
  {
    if list != [] {
      assert list[0] in list;
    }
  }

  lemma NoneListed(changes: Changes, file: seq<CheckIn>, here: seq<CheckIn>)
    requires DistinctCallsigns(file) && DistinctCallsigns(here) && PlainCallsigns(file) && PlainCallsigns(here)
    requires Describes(changes, file, here)
    requires changes.changed == [] && changes.onlyInFile == [] && changes.onlyHere == []
    ensures multiset(Keys(file)) == multiset(Keys(here))
  {
    KeysRepeatNot(file);
    KeysRepeatNot(here);
    forall x ensures multiset(Keys(file))[x] == multiset(Keys(here))[x] {
      CountsOnce(Keys(file), x);
      CountsOnce(Keys(here), x);
      if x in Keys(file) {
        KeyIsThere(changes, file, here, x);
      }
      if x in Keys(here) {
        KeyIsHere(changes, file, here, x);
      }
    }
  }

  lemma KeyIsThere(changes: Changes, file: seq<CheckIn>, here: seq<CheckIn>, x: string)
    requires Describes(changes, file, here) && changes.changed == [] && changes.onlyInFile == [] && x in Keys(file)
    ensures x in Keys(here)
  {
    var i :| 0 <= i < |file| && Key(file[i]) == x;
    var s := CallsignOf(file[i]);
    assert file[i] in file && HasCallsign(file, s);
    assert s !in changes.onlyInFile && s !in changes.changed;
    var b :| b in here && CallsignOf(b) == s;
    var j :| 0 <= j < |here| && here[j] == b;
    assert Keys(here)[j] == x;
  }

  lemma KeyIsHere(changes: Changes, file: seq<CheckIn>, here: seq<CheckIn>, x: string)
    requires Describes(changes, file, here) && changes.changed == [] && changes.onlyHere == [] && x in Keys(here)
    ensures x in Keys(file)
  {
    var i :| 0 <= i < |here| && Key(here[i]) == x;
    var s := CallsignOf(here[i]);
    assert here[i] in here && HasCallsign(here, s);
    assert s !in changes.onlyHere && s !in changes.changed;
    var a :| a in file && CallsignOf(a) == s;
    var j :| 0 <= j < |file| && file[j] == a;
    assert Keys(file)[j] == x;
  }

  // A check-in with the same key on the other side.
  lemma Counterpart(a: CheckIn, log: seq<CheckIn>, other: seq<CheckIn>) returns (b: CheckIn)
    requires a in log && PlainCallsigns(log) && PlainCallsigns(other) && multiset(Keys(log)) == multiset(Keys(other))
    ensures b in other && Key(b) == Key(a) && CallsignOf(b) == CallsignOf(a)
  {
    var i :| 0 <= i < |log| && log[i] == a;
    assert Keys(log)[i] in multiset(Keys(other));
    var j :| 0 <= j < |other| && Keys(other)[j] == Key(a);
    b := other[j];
    KeyCallsign(a, b);
  }

  lemma SameMeansNoneListed(changes: Changes, file: seq<CheckIn>, here: seq<CheckIn>)
    requires DistinctCallsigns(here) && PlainCallsigns(file) && PlainCallsigns(here)
    requires Describes(changes, file, here) && multiset(Keys(file)) == multiset(Keys(here))
    ensures forall s :: s !in changes.changed && s !in changes.onlyInFile && s !in changes.onlyHere
  {
    forall s ensures s !in changes.changed && s !in changes.onlyInFile && s !in changes.onlyHere {
      if HasCallsign(file, s) {
        var a :| a in file && CallsignOf(a) == s;
        var b := Counterpart(a, file, here);
        assert HasCallsign(here, s);
      }
      if HasCallsign(here, s) {
        var b :| b in here && CallsignOf(b) == s;
        var a := Counterpart(b, here, file);
        assert HasCallsign(file, s);
      }
      if s in changes.changed {
        var a, b :| a in file && b in here && CallsignOf(a) == CallsignOf(b) == s && Key(a) != Key(b);
        var c := Counterpart(a, file, here);
        OneOfACallsign(here, b, c);
      }
    }
  }

  lemma OneOfACallsign(log: seq<CheckIn>, b: CheckIn, c: CheckIn)
    requires DistinctCallsigns(log) && b in log && c in log && CallsignOf(b) == CallsignOf(c)
    ensures b == c
  {
  }

  // ---- The plan ----

  // What a file session is found to be, once matched with one here.
  ghost predicate Judged(m: MergeSession, file: Logged, fileList: seq<CheckIn>, here: Instance, hereList: seq<CheckIn>) {
    && m.localId == here.id && m.localOpen == here.open
    && (m.checkInsDiffer <==> !SameCheckIns(fileList, hereList))
    && (m.notesDiffer <==> file.instance.notes != here.notes)
    && (m.kind == AlreadyHere <==> (!m.checkInsDiffer && !m.notesDiffer) || here.open)
    && (m.kind == Differs <==> (m.checkInsDiffer || m.notesDiffer) && !here.open)
    && (m.checkInsDiffer && DistinctCallsigns(fileList) && DistinctCallsigns(hereList) ==>
          Describes(m.changes, fileList, hereList))
  }

  // Each session of the file, matched first come first served.
  ghost predicate Planned(m: MergeSession, s: Slice, files: seq<Logged>, list: seq<Logged>, sessions: seq<Instance>,
                          checkIns: map<int, seq<CheckIn>>, i: nat)
    requires i < |s.instances| == |files|
  {
    var found := MatchOf(files, list, i);
    && m.fileIndex == i && !m.replace && m.fileOpen == s.instances[i].open
    && (m.kind == New <==> found.None?)
    && (found.Found? ==> m.localId == found.id && IsJudged(m, s, files, sessions, checkIns, i))
  }

  ghost predicate IsJudged(m: MergeSession, s: Slice, files: seq<Logged>, sessions: seq<Instance>,
                           checkIns: map<int, seq<CheckIn>>, i: nat)
    requires i < |s.instances| == |files|
  {
    exists k :: 0 <= k < |sessions| && sessions[k].id == m.localId && sessions[k].id in checkIns
      && Judged(m, files[i], CheckInsOf(s.checkIns, s.instances[i].id), sessions[k], checkIns[sessions[k].id])
  }

  // The check-ins by session, each session of the file having a list.
  method CheckInsBySession(s: Slice) returns (grouped: map<int, seq<CheckIn>>)
    ensures forall i :: 0 <= i < |s.instances| ==> s.instances[i].id in grouped
    ensures forall id :: id in grouped ==> grouped[id] == CheckInsOf(s.checkIns, id)
  {
    grouped := map[];
    for i := 0 to |s.instances|
      invariant forall k :: 0 <= k < i ==> s.instances[k].id in grouped
      invariant forall id :: id in grouped ==> grouped[id] == []
    {
      grouped := grouped[s.instances[i].id := []];
    }
    for i := 0 to |s.checkIns|
      invariant forall k :: 0 <= k < |s.instances| ==> s.instances[k].id in grouped
      invariant forall id :: id in grouped ==> grouped[id] == CheckInsOf(s.checkIns[..i], id)
      invariant forall id :: id !in grouped ==> CheckInsOf(s.checkIns[..i], id) == []
    {
      var c := s.checkIns[i];
      assert s.checkIns[..i + 1][..i] == s.checkIns[..i];
      var before := if c.session in grouped then grouped[c.session] else [];
      grouped := grouped[c.session := before + [c]];
    }
    assert s.checkIns[..|s.checkIns|] == s.checkIns;
  }

  // Whether a session of the file is one here; keys are made only if they are
  // compared, and once.
  method IsSame(file: Instance, here: Instance, fileLists: map<int, seq<CheckIn>>, hereLists: map<int, seq<CheckIn>>,
                fileKeys: map<int, seq<string>>, hereKeys: map<int, seq<string>>, ghost f: Logged, ghost h: Logged)
    returns (same: bool, fileMore: map<int, seq<string>>, hereMore: map<int, seq<string>>)
    requires file.id in fileLists && here.id in hereLists
    requires f == LoggedAs(file, fileLists[file.id]) && h == LoggedAs(here, hereLists[here.id])
    requires Remembers(fileKeys, fileLists) && Remembers(hereKeys, hereLists)
    ensures Remembers(fileMore, fileLists) && Remembers(hereMore, hereLists)
    ensures same == SameSession(f, h)
  {
    fileMore, hereMore := fileKeys, hereKeys;
    if BothHaveStartTimes(file, here) {
      same := TimesMatch(file, here);
    } else {
      same := file.date == here.date && |fileLists[file.id]| == |hereLists[here.id]|;
      if same {
        var a, b;
        a, fileMore := KeysFor(file.id, fileLists, fileMore);
        b, hereMore := KeysFor(here.id, hereLists, hereMore);
        same := a == b;
      } else if file.date == here.date {
        SortKeepsCount(fileLists[file.id]);
        SortKeepsCount(hereLists[here.id]);
      }
    }
  }

  lemma SortKeepsCount(log: seq<CheckIn>)
    ensures |Sort(Keys(log))| == |log|
  {
    SortSorts(Keys(log));
    assert |multiset(Sort(Keys(log)))| == |Sort(Keys(log))| && |multiset(Keys(log))| == |Keys(log)|;
  }

  predicate Listed(sessions: seq<Instance>, lists: map<int, seq<CheckIn>>) {
    forall k :: 0 <= k < |sessions| ==> sessions[k].id in lists
  }

  // Which session here, not yet matched, is the first that a session of the
  // file is the same as; -1 for none.
  method FindHere(file: Instance, fileLists: map<int, seq<CheckIn>>, sessions: seq<Instance>,
                  hereLists: map<int, seq<CheckIn>>, fileKeys: map<int, seq<string>>, hereKeys: map<int, seq<string>>,
                  matched: set<int>, ghost f: Logged, ghost list: seq<Logged>)
    returns (at: int, fileMore: map<int, seq<string>>, hereMore: map<int, seq<string>>)
    requires file.id in fileLists && f == LoggedAs(file, fileLists[file.id]) && AreLogged(list, sessions, hereLists)
    requires Remembers(fileKeys, fileLists) && Remembers(hereKeys, hereLists)
    ensures Remembers(fileMore, fileLists) && Remembers(hereMore, hereLists)
    ensures -1 <= at < |sessions|
    ensures First(list, f, matched) == if at == -1 then None else Found(sessions[at].id)
  {
    fileMore, hereMore := fileKeys, hereKeys;
    for k := 0 to |sessions|
      invariant Remembers(fileMore, fileLists) && Remembers(hereMore, hereLists)
      invariant forall j :: 0 <= j < k ==> !Fits(list[j], f, matched)
    {
      assert IsLogged(list[k], sessions[k], hereLists);
      var fits;
      fits, fileMore, hereMore :=
        FitsHere(file, sessions[k], fileLists, hereLists, fileMore, hereMore, matched, f, list[k]);
      if fits {
        FirstIs(list, k, f, matched);
        return k, fileMore, hereMore;
      }
    }
    FirstIs(list, |list|, f, matched);
    at := -1;
  }

  method FitsHere(file: Instance, here: Instance, fileLists: map<int, seq<CheckIn>>, hereLists: map<int, seq<CheckIn>>,
                  fileKeys: map<int, seq<string>>, hereKeys: map<int, seq<string>>, matched: set<int>,
                  ghost f: Logged, ghost h: Logged)
    returns (fits: bool, fileMore: map<int, seq<string>>, hereMore: map<int, seq<string>>)
    requires file.id in fileLists && f == LoggedAs(file, fileLists[file.id]) && IsLogged(h, here, hereLists)
    requires Remembers(fileKeys, fileLists) && Remembers(hereKeys, hereLists)
    ensures Remembers(fileMore, fileLists) && Remembers(hereMore, hereLists)
    ensures fits == Fits(h, f, matched) && h.instance == here
  {
    fits, fileMore, hereMore := here.id !in matched, fileKeys, hereKeys;
    if fits {
      fits, fileMore, hereMore := IsSame(file, here, fileLists, hereLists, fileMore, hereMore, f, h);
    }
  }

  predicate IsLogged(l: Logged, i: Instance, lists: map<int, seq<CheckIn>>) {
    i.id in lists && l == LoggedAs(i, lists[i.id])
  }

  predicate AreLogged(list: seq<Logged>, sessions: seq<Instance>, lists: map<int, seq<CheckIn>>) {
    |list| == |sessions| && forall k :: 0 <= k < |list| ==> IsLogged(list[k], sessions[k], lists)
  }

  lemma HereIsLogged(sessions: seq<Instance>, lists: map<int, seq<CheckIn>>)
    requires Listed(sessions, lists)
    ensures AreLogged(HereOf(sessions, lists), sessions, lists)
  {
  }

  // How a session of the file compares with the one here it is the same as.
  method Judge(i: nat, s: Slice, fileLists: map<int, seq<CheckIn>>, here: Instance, hereLists: map<int, seq<CheckIn>>,
               fileKeys: map<int, seq<string>>, hereKeys: map<int, seq<string>>)
    returns (m: MergeSession, fileMore: map<int, seq<string>>, hereMore: map<int, seq<string>>)
    requires i < |s.instances| && s.instances[i].id in fileLists && here.id in hereLists
    requires Remembers(fileKeys, fileLists) && Remembers(hereKeys, hereLists)
    ensures Remembers(fileMore, fileLists) && Remembers(hereMore, hereLists)
    ensures m.fileIndex == i && !m.replace && m.fileOpen == s.instances[i].open && m.kind != New
    ensures Judged(m, LoggedAs(s.instances[i], fileLists[s.instances[i].id]), fileLists[s.instances[i].id],
                   here, hereLists[here.id])
  {
    var file := s.instances[i];
    fileMore, hereMore := fileKeys, hereKeys;
    var fileList, hereList := fileLists[file.id], hereLists[here.id];
    var differ := |fileList| != |hereList|;
    if !differ {
      var a, b;
      a, fileMore := KeysFor(file.id, fileLists, fileMore);
      b, hereMore := KeysFor(here.id, hereLists, hereMore);
      differ := a != b;
    }
    var notesDiffer := file.notes != here.notes;
    var changes := NO_CHANGES;
    if differ {
      changes := DescribeCheckInChanges(fileList, hereList);
    }
    var same := !differ && !notesDiffer;
    m := MergeSession(i, if same || here.open then AlreadyHere else Differs, here.id, here.open, file.open, differ,
                      notesDiffer, changes, false);
  }

  function CountNew(list: seq<SavedStation>, saved: map<Entry, SavedRow>): nat {
    if list == [] then 0
    else CountNew(list[..|list| - 1], saved) + if EntryOf(list[|list| - 1]) in saved then 0 else 1
  }

  ghost predicate AllPlanned(plan: seq<MergeSession>, s: Slice, files: seq<Logged>, list: seq<Logged>,
                             sessions: seq<Instance>, checkIns: map<int, seq<CheckIn>>)
  {
    && |plan| <= |s.instances| == |files|
    && forall i :: 0 <= i < |plan| ==> Planned(plan[i], s, files, list, sessions, checkIns, i)
  }

  method CountNewSaved(list: seq<SavedStation>, saved: map<Entry, SavedRow>) returns (count: nat)
    ensures count == CountNew(list, saved)
  {
    count := 0;
    for i := 0 to |list|
      invariant count == CountNew(list[..i], saved)
    {
      assert list[..i + 1][..i] == list[..i];
      if EntryOf(list[i]) !in saved {
        count := count + 1;
      }
    }
    assert list[..|list|] == list;
  }

  // The plan for one session, the ones before it having matched `matched`.
  method PlanSession(i: nat, s: Slice, fileLists: map<int, seq<CheckIn>>, sessions: seq<Instance>,
                     hereLists: map<int, seq<CheckIn>>, fileKeys: map<int, seq<string>>, hereKeys: map<int, seq<string>>,
                     matched: set<int>, ghost files: seq<Logged>, ghost list: seq<Logged>)
    returns (m: MergeSession, fileMore: map<int, seq<string>>, hereMore: map<int, seq<string>>)
    requires i < |s.instances| && s.instances[i].id in fileLists && Listed(sessions, hereLists)
    requires fileLists[s.instances[i].id] == CheckInsOf(s.checkIns, s.instances[i].id)
    requires Remembers(fileKeys, fileLists) && Remembers(hereKeys, hereLists)
    requires files == FilesOf(s) && AreLogged(list, sessions, hereLists) && matched == Taken(files, list, i)
    ensures Remembers(fileMore, fileLists) && Remembers(hereMore, hereLists)
    ensures Planned(m, s, files, list, sessions, hereLists, i)
  {
    var file := s.instances[i];
    var at;
    at, fileMore, hereMore := FindHere(file, fileLists, sessions, hereLists, fileKeys, hereKeys, matched, files[i], list);
    m := MergeSession(i, New, 0, false, file.open, false, false, NO_CHANGES, false);
    if at != -1 {
      m, fileMore, hereMore := Judge(i, s, fileLists, sessions[at], hereLists, fileMore, hereMore);
      assert IsJudged(m, s, files, sessions, hereLists, i);
    }
  }

  function MatchedBy(m: MergeSession): set<int> {
    if m.kind == New then {} else {m.localId}
  }

  lemma OneMorePlanned(plan: seq<MergeSession>, m: MergeSession, s: Slice, files: seq<Logged>, list: seq<Logged>,
                       sessions: seq<Instance>, checkIns: map<int, seq<CheckIn>>)
    requires |plan| < |s.instances| && AllPlanned(plan, s, files, list, sessions, checkIns)
    requires Planned(m, s, files, list, sessions, checkIns, |plan|)
    ensures AllPlanned(plan + [m], s, files, list, sessions, checkIns)
    ensures Taken(files, list, |plan| + 1) == Taken(files, list, |plan|) + MatchedBy(m)
  {
    forall i | 0 <= i < |plan + [m]| ensures Planned((plan + [m])[i], s, files, list, sessions, checkIns, i) {
      if i < |plan| {
        assert Planned(plan[i], s, files, list, sessions, checkIns, i);
      }
    }
  }

  method PlanSessions(s: Slice, fileLists: map<int, seq<CheckIn>>, here: seq<Instance>, hereLists: map<int, seq<CheckIn>>,
                      ghost files: seq<Logged>, ghost list: seq<Logged>)
    returns (sessions: seq<MergeSession>)
    requires Listed(s.instances, fileLists) && Listed(here, hereLists)
    requires forall i :: 0 <= i < |s.instances| ==>
               fileLists[s.instances[i].id] == CheckInsOf(s.checkIns, s.instances[i].id)
    requires files == FilesOf(s) && AreLogged(list, here, hereLists)
    ensures |sessions| == |s.instances| && AllPlanned(sessions, s, files, list, here, hereLists)
  {
    var fileKeys: map<int, seq<string>>, hereKeys: map<int, seq<string>> := map[], map[];
    var matched: set<int> := {};
    sessions := [];
    while |sessions| < |s.instances|
      invariant AllPlanned(sessions, s, files, list, here, hereLists)
      invariant Remembers(fileKeys, fileLists) && Remembers(hereKeys, hereLists)
      invariant matched == Taken(files, list, |sessions|)
    {
      var m;
      m, fileKeys, hereKeys :=
        PlanSession(|sessions|, s, fileLists, here, hereLists, fileKeys, hereKeys, matched, files, list);
      OneMorePlanned(sessions, m, s, files, list, here, hereLists);
      matched := matched + MatchedBy(m);
      sessions := sessions + [m];
    }
  }

  method PlanNetMerge(db: Database, s: Slice) returns (plan: Plan)
    requires db.Valid()
    ensures |plan.sessions| == |s.instances|
    ensures AllPlanned(plan.sessions, s, FilesOf(s), db.Here(), db.sessions, db.checkIns)
    ensures plan.newSaved == CountNew(s.saved, db.saved)
  {
    var newSaved := CountNewSaved(s.saved, db.saved);
    var fileLists := CheckInsBySession(s);
    HereIsLogged(db.sessions, db.checkIns);
    var sessions := PlanSessions(s, fileLists, db.sessions, db.checkIns, FilesOf(s), db.Here());
    plan := Plan(sessions, newSaved);
  }

  // ---- Carrying it out ----

  // The saved stations: blanks filled in, entries added where missing, and a
  // member ID given where there is none.
  method MergeSaved(db: Database, s: Slice, ghost t: Telling) returns (written: set<string>, added: nat)
    requires t == Telling(db.stations, StationsOf(s), |s.saved|, t.wanted)
    modifies db`stations, db`saved
    ensures Knows(t.before, t.all, |s.saved|, t.sure, t.wanted, db.stations) && written <= db.stations.Keys
    ensures SavedAs(s.saved, |s.saved|, old(db.saved), db.saved)
  {
    written, added := {}, 0;
    ghost var saved := db.saved;
    NothingTold(t);
    NothingSaved(s.saved, saved);
    for i := 0 to |s.saved|
      invariant Knows(t.before, t.all, i, t.sure, t.wanted, db.stations) && SavedAs(s.saved, i, saved, db.saved)
      invariant written <= db.stations.Keys
    {
      written := written + {Upper(s.saved[i].station.callsign)};
      var wasMissing := MergeOneSaved(db, s, i, t, saved);
      added := added + if wasMissing then 1 else 0;
    }
  }

  method MergeOneSaved(db: Database, s: Slice, i: nat, ghost t: Telling, ghost before: map<Entry, SavedRow>)
    returns (added: bool)
    requires i < |s.saved| && t == Telling(t.before, StationsOf(s), |s.saved|, t.wanted)
    requires Knows(t.before, t.all, i, t.sure, t.wanted, db.stations) && SavedAs(s.saved, i, before, db.saved)
    modifies db`stations, db`saved
    ensures Knows(t.before, t.all, i + 1, t.sure, t.wanted, db.stations) && SavedAs(s.saved, i + 1, before, db.saved)
    ensures db.stations.Keys == old(db.stations.Keys) + {Upper(s.saved[i].station.callsign)}
  {
    KnowsMore(t.before, t.all, i, t.sure, t.wanted, db.stations);
    db.FillStationBlanks(s.saved[i].station);
    added := AddEntry(db, s.saved, i, before);
  }

  method AddEntry(db: Database, list: seq<SavedStation>, i: nat, ghost before: map<Entry, SavedRow>) returns (added: bool)
    requires i < |list| && SavedAs(list, i, before, db.saved)
    modifies db`saved
    ensures SavedAs(list, i + 1, before, db.saved)
  {
    ghost var saved := db.saved;
    added := db.AddNetSavedStationIfMissing(list[i]);
    if added {
      EntryAdded(list, i, before, saved);
    } else if list[i].memberId == "" {
      NothingGiven(list, i, before, saved);
    } else {
      var has := db.HasNetMemberId(list[i].station.callsign);
      if !has {
        db.SetNetMemberId(list[i].station.callsign, list[i].memberId);
        IdGiven(list, i, before, saved, db.saved);
      } else {
        NothingGiven(list, i, before, saved);
      }
    }
  }

  // The details of other stations, for those in sessions being added.
  method MergeOthers(db: Database, s: Slice, wanted: set<string>, ghost t: Telling) returns (written: set<string>)
    requires t == Telling(t.before, StationsOf(s), |s.saved|, wanted) && Knows(t.before, t.all, |s.saved|, t.sure, wanted, db.stations)
    modifies db`stations
    ensures KnowsAll(t, db.stations) && written <= db.stations.Keys && old(db.stations.Keys) <= db.stations.Keys
  {
    written := {};
    for i := 0 to |s.others|
      invariant Knows(t.before, t.all, |s.saved| + i, t.sure, wanted, db.stations)
      invariant written <= db.stations.Keys && old(db.stations.Keys) <= db.stations.Keys
    {
      KnowsMore(t.before, t.all, |s.saved| + i, t.sure, wanted, db.stations);
      if Upper(s.others[i].callsign) in wanted {
        db.FillStationBlanks(s.others[i]);
        written := written + {Upper(s.others[i].callsign)};
      }
    }
  }

  // The same check-ins in another session, whatever their numbers.
  lemma LoggedKeys(to: seq<CheckIn>, from: seq<CheckIn>, id: int, anew: bool)
    requires IsLog(to, from, id, anew)
    ensures Keys(from) == Keys(to)
  {
    forall k | 0 <= k < |from| ensures Key(from[k]) == Key(to[k]) {
      KeyInCapitals(from[k], to[k]);
    }
  }

  lemma KeyInCapitals(a: CheckIn, b: CheckIn)
    requires b == a.(session := b.session, callsign := Upper(a.callsign), number := b.number)
    ensures Key(a) == Key(b)
  {
    var rest := [SEPARATOR] + a.name;
    UpperTwice(a.callsign);
    UpperJoins(a.callsign, rest);
    UpperJoins(Upper(a.callsign), rest);
    assert a.callsign + [SEPARATOR] + a.name == a.callsign + rest && b.callsign + [SEPARATOR] + b.name == b.callsign + rest;
  }

  lemma UpperJoins(a: string, b: string)
    ensures Upper(a + b) == Upper(a) + Upper(b)
  {
  }

  // A listing with one session more.
  lemma HereWithOneMore(sessions: seq<Instance>, checkIns: map<int, seq<CheckIn>>, at: nat, i: Instance, log: seq<CheckIn>)
    requires at <= |sessions| && forall k :: 0 <= k < |sessions| ==> sessions[k].id != i.id
    ensures HereOf(sessions[..at] + [i] + sessions[at..], checkIns[i.id := log])
         == Put(HereOf(sessions, checkIns), at, LoggedAs(i, log))
  {
  }

  // The session as it is to be added.
  method Closed(file: Instance, list: seq<CheckIn>, now: int) returns (instance: Instance)
    ensures instance == AsAdded(LoggedAs(file, list), now) && IsClosedCopy(instance, file, list, now) && instance.id == file.id
  {
    instance := file;
    if file.open {
      var last := LatestAfter(file.startedAt, list);
      instance := instance.(open := false, closedAt := if last > 0 then last else now);
      LastAtIs(list);
      forall t | IsLatest(t, file.startedAt, list) ensures t == last {
        OneLatest(t, last, file.startedAt, list);
      }
    }
  }

  lemma {:induction false} LastAtIs(list: seq<CheckIn>)
    ensures forall k :: 0 <= k < |list| ==> list[k].at <= LastAt(list)
    ensures LastAt(list) == 0 || exists k :: 0 <= k < |list| && list[k].at == LastAt(list)
  {
    if list != [] {
      var before := list[..|list| - 1];
      LastAtIs(before);
      if LastAt(list) != 0 && LastAt(list) == LastAt(before) {
        var k :| 0 <= k < |before| && before[k].at == LastAt(before);
        assert list[k].at == LastAt(list);
      }
      forall k | 0 <= k < |list| ensures list[k].at <= LastAt(list) {
        assert k < |before| ==> list[k] == before[k];
      }
    }
  }

  // A session of the file put in at a place in the listing, under a new id.
  ghost predicate IsPutIn(sessions: seq<Instance>, checkIns: map<int, seq<CheckIn>>, after: seq<Instance>,
                          logsAfter: map<int, seq<CheckIn>>, at: nat, copy: Logged, file: Instance, list: seq<CheckIn>, now: int)
  {
    var x := copy.instance;
    && at <= |HereOf(sessions, checkIns)| && HereOf(after, logsAfter) == Put(HereOf(sessions, checkIns), at, copy)
    && IsCopy(copy, LoggedAs(file, list), now)
    && OneMoreListed(sessions, x, after) && IsClosedCopy(x, file, list, now)
    && x.id in logsAfter && logsAfter == checkIns[x.id := logsAfter[x.id]] && IsLog(logsAfter[x.id], list, x.id, file.open)
  }

  // One session added, with its check-ins and the stations they need.
  method AddSession(db: Database, file: Instance, list: seq<CheckIn>, now: int, have: set<string>, ghost t: Telling)
    returns (more: set<string>, ghost at: nat, ghost copy: Logged)
    requires db.Valid() && KnowsAll(t, db.stations) && have <= db.stations.Keys && CallsignsIn(list) <= t.wanted
    modifies db`sessions, db`checkIns, db`lastId, db`stations
    ensures db.Valid() && copy.instance.id == old(db.lastId) + 1
    ensures IsPutIn(old(db.sessions), old(db.checkIns), db.sessions, db.checkIns, at, copy, file, list, now)
    ensures KnowsAll(t, db.stations) && more + CallsignsIn(list) + old(db.stations.Keys) <= db.stations.Keys
  {
    ghost var sessions, checkIns := db.sessions, db.checkIns;
    var instance := Closed(file, list, now);
    var id;
    id, at := db.CreateNetInstance(instance);
    more := FillSession(db, list, id, file.open, have, t);
    ghost var log := db.checkIns[id];
    assert db.checkIns == checkIns[id := log];
    copy := LoggedAs(instance.(id := id), log);
    SessionAdded(sessions, checkIns, at, instance.(id := id), log, file, list, now);
  }

  lemma SessionAdded(sessions: seq<Instance>, checkIns: map<int, seq<CheckIn>>, at: nat, i: Instance, log: seq<CheckIn>,
                     file: Instance, list: seq<CheckIn>, now: int)
    requires IsNet(sessions, checkIns, i.id - 1) && at <= |sessions|
    requires InOrder(sessions[..at] + [i] + sessions[at..])
    requires i == AsAdded(LoggedAs(file, list), now).(id := i.id) && IsClosedCopy(i, file, list, now)
    requires IsLog(log, list, i.id, file.open)
    ensures var after, logsAfter := sessions[..at] + [i] + sessions[at..], checkIns[i.id := log];
            IsNet(after, logsAfter, i.id) && IsPutIn(sessions, checkIns, after, logsAfter, at, LoggedAs(i, log), file, list, now)
  {
    HereWithOneMore(sessions, checkIns, at, i, log);
    StillValid(sessions, checkIns, i.id - 1, at, i, log);
    OneListedMore(sessions, at, i);
    LoggedKeys(log, list, i.id, file.open);
  }

  lemma OneListedMore(sessions: seq<Instance>, at: nat, i: Instance)
    requires at <= |sessions|
    ensures OneMoreListed(sessions, i, sessions[..at] + [i] + sessions[at..])
  {
    assert sessions == sessions[..at] + sessions[at..];
  }

  method FillSession(db: Database, list: seq<CheckIn>, id: int, renumber: bool, have: set<string>, ghost t: Telling)
    returns (more: set<string>)
    requires id in db.checkIns && db.checkIns[id] == []
    requires KnowsAll(t, db.stations) && have <= db.stations.Keys && CallsignsIn(list) <= t.wanted
    modifies db`checkIns, db`stations
    ensures id in db.checkIns && db.checkIns == old(db.checkIns)[id := db.checkIns[id]]
    ensures IsLog(db.checkIns[id], list, id, renumber)
    ensures KnowsAll(t, db.stations) && more + CallsignsIn(list) + old(db.stations.Keys) <= db.stations.Keys
  {
    more := AddCheckIns(db, list, id, have, t);
    if renumber {
      ghost var log := db.checkIns[id];
      db.RenumberCheckIns(id);
      RenumberedIsNumbered(log, list);
    }
  }

  // Numbered anew, in the order they had.
  lemma RenumberedIsNumbered(log: seq<CheckIn>, list: seq<CheckIn>)
    requires |log| == |list| && forall k :: 0 <= k < |log| ==> log[k].number == list[k].number
    ensures IsNumbered(Renumbered(log), list)
  {
    forall k | 0 <= k < |log| ensures |Preceding(log, k)| < |log| {
      AllBelow(Preceding(log, k) + {k}, |log|);
    }
    forall j, k | 0 <= j < |log| && 0 <= k < |log| && Precedes(list, j, k)
      ensures |Preceding(log, j)| < |Preceding(log, k)|
    {
      assert Preceding(log, j) + {j} <= Preceding(log, k);
      SmallerSet(Preceding(log, j) + {j}, Preceding(log, k));
    }
  }

  lemma {:induction false} AllBelow(places: set<nat>, n: nat)
    requires forall x :: x in places ==> x < n
    ensures |places| <= n
  {
    if n > 0 {
      AllBelow(places - {n - 1}, n - 1);
    }
  }

  lemma {:induction false} SmallerSet(a: set<nat>, b: set<nat>)
    requires a <= b
    ensures |a| <= |b|
  {
    assert |b - a| + |a| == |b| by {
      assert (b - a) + a == b;
    }
  }

  lemma StillValid(sessions: seq<Instance>, checkIns: map<int, seq<CheckIn>>, lastId: int, at: nat, i: Instance, log: seq<CheckIn>)
    requires IsNet(sessions, checkIns, lastId) && at <= |sessions| && i.id == lastId + 1
    requires InOrder(sessions[..at] + [i] + sessions[at..])
    ensures IsNet(sessions[..at] + [i] + sessions[at..], checkIns[i.id := log], i.id)
  {
    var more, logs := sessions[..at] + [i] + sessions[at..], checkIns[i.id := log];
    HereWithOneMore(sessions, checkIns, at, i, log);
    PutIsDistinct(HereOf(sessions, checkIns), at, LoggedAs(i, log));
    forall k | 0 <= k < |more| ensures more[k].id in logs && more[k].id <= i.id {
      assert k < at ==> more[k] == sessions[k];
      assert k > at ==> more[k] == sessions[k - 1];
    }
    forall id | id in logs ensures id <= i.id && exists k :: 0 <= k < |more| && more[k].id == id {
      StillListed(sessions, at, i, id);
    }
  }

  lemma StillListed(sessions: seq<Instance>, at: nat, i: Instance, id: int)
    requires at <= |sessions| && (id == i.id || exists k :: 0 <= k < |sessions| && sessions[k].id == id)
    ensures var more := sessions[..at] + [i] + sessions[at..]; exists k :: 0 <= k < |more| && more[k].id == id
  {
    var more := sessions[..at] + [i] + sessions[at..];
    if id == i.id {
      assert more[at].id == id;
    } else {
      var k :| 0 <= k < |sessions| && sessions[k].id == id;
      assert more[if k < at then k else k + 1].id == id;
    }
  }

  // The latest of a start and the check-ins.
  method LatestAfter(start: int, list: seq<CheckIn>) returns (last: int)
    ensures IsLatest(last, start, list)
  {
    last := start;
    for i := 0 to |list|
      invariant IsLatest(last, start, list[..i])
    {
      if list[i].at > last {
        last := list[i].at;
      }
      assert list[..i + 1] == list[..i] + [list[i]];
    }
    assert list[..|list|] == list;
  }

  method AddCheckIns(db: Database, list: seq<CheckIn>, id: int, have: set<string>, ghost t: Telling) returns (more: set<string>)
    requires id in db.checkIns && db.checkIns[id] == []
    requires KnowsAll(t, db.stations) && have <= db.stations.Keys && CallsignsIn(list) <= t.wanted
    modifies db`checkIns, db`stations
    ensures id in db.checkIns && db.checkIns == old(db.checkIns)[id := db.checkIns[id]] && IsLog(db.checkIns[id], list, id, false)
    ensures KnowsAll(t, db.stations) && more + CallsignsIn(list) + old(db.stations.Keys) <= db.stations.Keys
  {
    more := have;
    for i := 0 to |list|
      invariant id in db.checkIns && db.checkIns == old(db.checkIns)[id := db.checkIns[id]]
      invariant IsLog(db.checkIns[id], list[..i], id, false)
      invariant KnowsAll(t, db.stations) && more + CallsignsIn(list[..i]) + old(db.stations.Keys) <= db.stations.Keys
    {
      assert Upper(list[i].callsign) in CallsignsIn(list);
      more := KnowCallsign(db, list[i].callsign, more, t);
      db.AddCheckIn(list[i], id);
      CallsignsMore(list, i);
    }
    assert list[..|list|] == list;
  }

  // Only the call sign, if nothing is known of a station, and once.
  method KnowCallsign(db: Database, callsign: string, have: set<string>, ghost t: Telling) returns (more: set<string>)
    requires KnowsAll(t, db.stations) && have <= db.stations.Keys && Upper(callsign) in t.wanted
    modifies db`stations
    ensures KnowsAll(t, db.stations) && more + {Upper(callsign)} + old(db.stations.Keys) <= db.stations.Keys
  {
    more := have;
    if Upper(callsign) !in more {
      more := more + {Upper(callsign)};
      KnowsBare(t, db.stations, Upper(callsign));
      db.FillStationBlanks(Station(callsign, NO_DETAILS));
    }
  }

  lemma CallsignsMore(list: seq<CheckIn>, i: nat)
    requires i < |list|
    ensures CallsignsIn(list[..i + 1]) == CallsignsIn(list[..i]) + {Upper(list[i].callsign)}
  {
    var before := list[..i];
    assert list[..i + 1] == before + [list[i]];
    assert forall k :: 0 <= k < i ==> list[..i + 1][k] == before[k];
  }

  // ---- The whole merge ----

  predicate DistinctSessions(sessions: seq<Instance>) {
    forall i, j :: 0 <= i < j < |sessions| ==> sessions[i].id != sessions[j].id
  }

  lemma {:induction false} WithoutHolds(sessions: seq<Instance>, id: int)
    ensures forall x :: x in Without(sessions, id) <==> x in sessions && x.id != id
    ensures DistinctSessions(sessions) ==> DistinctSessions(Without(sessions, id))
  {
    if sessions != [] {
      WithoutHolds(sessions[1..], id);
      assert sessions == [sessions[0]] + sessions[1..];
      var rest := Without(sessions[1..], id);
      if DistinctSessions(sessions) {
        assert DistinctSessions(sessions[1..]);
        forall j | 0 <= j < |rest| ensures rest[j].id != sessions[0].id {
          assert rest[j] in sessions[1..];
        }
      }
    }
  }

  lemma {:induction false} WithoutIsInOrder(sessions: seq<Instance>, id: int)
    requires InOrder(sessions)
    ensures InOrder(Without(sessions, id))
  {
    if sessions != [] {
      var later := sessions[1..];
      assert forall k :: 0 <= k < |later| ==> later[k] == sessions[k + 1];
      WithoutIsInOrder(later, id);
      WithoutHolds(later, id);
      var rest := Without(later, id);
      forall j | 0 <= j < |rest| ensures Newer(sessions[0], rest[j]) {
        assert rest[j] in later;
        var k :| 0 <= k < |later| && later[k] == rest[j];
        assert Newer(sessions[0], sessions[k + 1]);
      }
    }
  }

  // The database lists its sessions in order, and so does a file.
  lemma HereListed(sessions: seq<Instance>, checkIns: map<int, seq<CheckIn>>)
    requires InOrder(sessions)
    ensures NetListing.Listed(HereOf(sessions, checkIns))
  {
  }

  lemma FilesListed(s: Slice)
    requires InOrder(s.instances)
    ensures NetListing.Listed(FilesOf(s))
  {
  }

  lemma DistinctHere(sessions: seq<Instance>, checkIns: map<int, seq<CheckIn>>)
    ensures DistinctIds(HereOf(sessions, checkIns)) <==> DistinctSessions(sessions)
  {
    var here := HereOf(sessions, checkIns);
    assert forall k :: 0 <= k < |sessions| ==> here[k].instance == sessions[k];
    if DistinctIds(here) {
      forall i, j | 0 <= i < j < |sessions| ensures sessions[i].id != sessions[j].id {
        assert here[i].instance.id != here[j].instance.id;
      }
    }
  }

  method DeleteOne(db: Database, id: int)
    requires db.Valid()
    modifies db`sessions, db`checkIns
    ensures db.Valid() && forall x :: x in db.sessions <==> x in old(db.sessions) && x.id != id
    ensures db.checkIns == map k | k in old(db.checkIns) && k != id :: old(db.checkIns)[k]
  {
    ghost var sessions, checkIns := db.sessions, db.checkIns;
    db.DeleteNetInstance(id);
    WithoutHolds(sessions, id);
    OneDeleted(sessions, checkIns, db.lastId, id);
  }

  lemma OneDeleted(sessions: seq<Instance>, checkIns: map<int, seq<CheckIn>>, lastId: int, id: int)
    requires IsNet(sessions, checkIns, lastId)
    ensures IsNet(Without(sessions, id), map k | k in checkIns && k != id :: checkIns[k], lastId)
  {
    var after, left := Without(sessions, id), map k | k in checkIns && k != id :: checkIns[k];
    DistinctHere(sessions, checkIns);
    DistinctHere(after, left);
    WithoutHolds(sessions, id);
    WithoutIsInOrder(sessions, id);
    forall k | 0 <= k < |after| ensures after[k].id in left && after[k].id <= lastId {
      assert after[k] in sessions;
    }
    forall other | other in left ensures exists k :: 0 <= k < |after| && after[k].id == other {
      var k :| 0 <= k < |sessions| && sessions[k].id == other;
      assert sessions[k] in after;
    }
  }

  // The sessions being replaced go, with their check-ins, and no others.
  method DeleteReplaced(db: Database, plan: seq<MergeSession>) returns (any: bool)
    requires db.Valid()
    modifies db`sessions, db`checkIns
    ensures db.Valid() && (any <==> !NoReplace(plan))
    ensures Left(plan, |plan|, old(db.sessions), db.sessions) && LogsLeft(plan, |plan|, old(db.checkIns), db.checkIns)
    ensures !any ==> db.sessions == old(db.sessions) && db.checkIns == old(db.checkIns) && db.Here() == old(db.Here())
  {
    any := false;
    for i := 0 to |plan|
      invariant db.Valid() && (any <==> exists k :: 0 <= k < i && Replaces(plan[k]))
      invariant Left(plan, i, old(db.sessions), db.sessions) && LogsLeft(plan, i, old(db.checkIns), db.checkIns)
      invariant !any ==> db.sessions == old(db.sessions) && db.checkIns == old(db.checkIns)
    {
      if plan[i].kind == Differs && plan[i].replace {
        DeleteOne(db, plan[i].localId);
        any := true;
      }
      forall id ensures Gone(plan, i + 1, id) <==> Gone(plan, i, id) || (Replaces(plan[i]) && plan[i].localId == id) {
        OneMoreGone(plan, i, id);
      }
    }
  }

  method CallsignsAdded(s: Slice, plan: seq<MergeSession>, fileLists: map<int, seq<CheckIn>>) returns (callsigns: set<string>)
    requires |plan| == |s.instances| && Listed(s.instances, fileLists)
    requires forall i :: 0 <= i < |plan| ==> plan[i].fileIndex == i
    requires forall id :: id in fileLists ==> fileLists[id] == CheckInsOf(s.checkIns, id)
    ensures callsigns == WantedIn(s, plan)
  {
    callsigns := {};
    for i := 0 to |plan|
      invariant AreWanted(s, plan, i, callsigns)
    {
      OneMoreWanted(s, plan, i, callsigns);
      if Adds(plan[i]) {
        var list := fileLists[s.instances[plan[i].fileIndex].id];
        ghost var before := callsigns;
        for k := 0 to |list|
          invariant callsigns == before + CallsignsIn(list[..k])
        {
          callsigns := callsigns + {Upper(list[k].callsign)};
          CallsignsMore(list, k);
        }
        assert list[..|list|] == list;
      }
    }
  }

  // The plan finds new what matching does.
  predicate AsMatched(plan: seq<MergeSession>, files: seq<Logged>, list: seq<Logged>) {
    && |plan| == |files|
    && forall i :: 0 <= i < |plan| ==> plan[i].fileIndex == i && (plan[i].kind == New <==> MatchOf(files, list, i).None?)
  }

  lemma AddedIsWanted(s: Slice, plan: seq<MergeSession>, i: nat)
    requires i < |plan| == |s.instances| && Adds(plan[i])
    ensures CallsignsIn(CheckInsOf(s.checkIns, s.instances[i].id)) <= WantedIn(s, plan)
  {
    var log := CheckInsOf(s.checkIns, s.instances[i].id);
    forall c | c in CallsignsIn(log) ensures c in WantedIn(s, plan) {
      assert InLog(log, c);
      assert Wanted(s, plan, |plan|, c);
    }
  }

  // What the first `n` sessions of a plan have added to those left.
  ghost predicate AddedSoFar(s: Slice, plan: seq<MergeSession>, n: nat, from: map<int, nat>, left: seq<Instance>,
                             logsLeft: map<int, seq<CheckIn>>, after: seq<Instance>, logsAfter: map<int, seq<CheckIn>>, now: int)
    requires n <= |plan| == |s.instances|
  {
    && OthersStay(left, logsLeft, from, after, logsAfter) && AllNew(s, plan, n, from, after, logsAfter, now)
    && from.Keys <= logsAfter.Keys && logsLeft.Keys <= logsAfter.Keys
  }

  lemma OneMoreAdded(s: Slice, plan: seq<MergeSession>, n: nat, from: map<int, nat>, left: seq<Instance>,
                     logsLeft: map<int, seq<CheckIn>>, mid: seq<Instance>, logsMid: map<int, seq<CheckIn>>, after: seq<Instance>,
                     logsAfter: map<int, seq<CheckIn>>, at: nat, copy: Logged, now: int, lastId: int)
    requires n < |plan| == |s.instances| && AddedSoFar(s, plan, n, from, left, logsLeft, mid, logsMid, now) && Adds(plan[n])
    requires IsNet(mid, logsMid, lastId) && copy.instance.id > lastId
    requires IsPutIn(mid, logsMid, after, logsAfter, at, copy, s.instances[n], CheckInsOf(s.checkIns, s.instances[n].id), now)
    ensures AddedSoFar(s, plan, n + 1, from[copy.instance.id := n], left, logsLeft, after, logsAfter, now)
  {
    var x := copy.instance;
    forall y | y in mid ensures y.id != x.id {
      var k :| 0 <= k < |mid| && mid[k] == y;
    }
    OthersStillStay(left, logsLeft, from, mid, logsMid, x, logsAfter[x.id], n, after);
    OneMoreNew(s, plan, n, from, mid, logsMid, now, x, logsAfter[x.id], after);
  }

  lemma OneMoreMerged(s: Slice, plan: seq<MergeSession>, n: nat, from: map<int, nat>, files: seq<Logged>, list: seq<Logged>,
                      known: set<int>, mid: seq<Instance>, logsMid: map<int, seq<CheckIn>>, after: seq<Instance>,
                      logsAfter: map<int, seq<CheckIn>>, at: nat, copy: Logged, now: int, lastId: int)
    requires n < |plan| == |s.instances| && files == FilesOf(s) && MatchOf(files, list, n).None?
    requires MergedUpTo(files, list, known, HereOf(mid, logsMid), from, now, n)
    requires IsNet(mid, logsMid, lastId) && copy.instance.id > lastId && from.Keys + known <= logsMid.Keys
    requires IsPutIn(mid, logsMid, after, logsAfter, at, copy, s.instances[n], CheckInsOf(s.checkIns, s.instances[n].id), now)
    ensures MergedUpTo(files, list, known, HereOf(after, logsAfter), from[copy.instance.id := n], now, n + 1)
  {
    CopyMerged(files, list, known, HereOf(mid, logsMid), from, now, n, copy, at);
  }

  // Sessions put in one by one: what was here stays, in order, and each new
  // one is a copy of its own.
  method AddAll(db: Database, s: Slice, plan: seq<MergeSession>, now: int, have: set<string>, ghost files: seq<Logged>,
                ghost list: seq<Logged>, ghost t: Telling)
    returns (ghost from: map<int, nat>)
    requires db.Valid() && files == FilesOf(s) && AsMatched(plan, files, list)
    requires NoReplace(plan) ==> list == db.Here()
    requires t == Telling(t.before, StationsOf(s), |s.saved|, WantedIn(s, plan)) && KnowsAll(t, db.stations) && have <= db.stations.Keys
    modifies db`sessions, db`checkIns, db`lastId, db`stations
    ensures db.Valid() && AddedSoFar(s, plan, |plan|, from, old(db.sessions), old(db.checkIns), db.sessions, db.checkIns, now)
    ensures StationsTold(s, plan, t.before, db.stations) && old(db.stations.Keys) <= db.stations.Keys
    ensures NoReplace(plan) ==> Merged(files, list, old(db.checkIns.Keys), db.Here(), from, now)
  {
    from := map[];
    var fileLists := CheckInsBySession(s);
    var written := have;
    ghost var left, logs, stations := db.sessions, db.checkIns, db.stations.Keys;
    if NoReplace(plan) {
      NothingMerged(files, list, logs.Keys, now);
    }
    for i := 0 to |plan|
      invariant db.Valid() && AddedSoFar(s, plan, i, from, left, logs, db.sessions, db.checkIns, now)
      invariant KnowsAll(t, db.stations) && HasWanted(s, plan, i, db.stations.Keys) && written + stations <= db.stations.Keys
      invariant NoReplace(plan) ==> MergedUpTo(files, list, logs.Keys, HereOf(db.sessions, db.checkIns), from, now, i)
    {
      written, from := AddIfPlanned(db, s, plan, i, fileLists, now, written, t, from, files, list, left, logs);
    }
    ToldAll(s, plan, t, db.stations);
  }

  method AddIfPlanned(db: Database, s: Slice, plan: seq<MergeSession>, i: nat, fileLists: map<int, seq<CheckIn>>, now: int,
                      have: set<string>, ghost t: Telling, ghost from: map<int, nat>, ghost files: seq<Logged>,
                      ghost list: seq<Logged>, ghost left: seq<Instance>, ghost logsLeft: map<int, seq<CheckIn>>)
    returns (written: set<string>, ghost more: map<int, nat>)
    requires db.Valid() && i < |plan| == |s.instances| && files == FilesOf(s) && AsMatched(plan, files, list)
    requires Listed(s.instances, fileLists) && forall id :: id in fileLists ==> fileLists[id] == CheckInsOf(s.checkIns, id)
    requires AddedSoFar(s, plan, i, from, left, logsLeft, db.sessions, db.checkIns, now)
    requires NoReplace(plan) ==> MergedUpTo(files, list, logsLeft.Keys, HereOf(db.sessions, db.checkIns), from, now, i)
    requires KnowsAll(t, db.stations) && HasWanted(s, plan, i, db.stations.Keys)
    requires have <= db.stations.Keys && t.wanted == WantedIn(s, plan)
    modifies db`sessions, db`checkIns, db`lastId, db`stations
    ensures db.Valid() && AddedSoFar(s, plan, i + 1, more, left, logsLeft, db.sessions, db.checkIns, now)
    ensures NoReplace(plan) ==> MergedUpTo(files, list, logsLeft.Keys, HereOf(db.sessions, db.checkIns), more, now, i + 1)
    ensures KnowsAll(t, db.stations) && HasWanted(s, plan, i + 1, db.stations.Keys)
    ensures written + old(db.stations.Keys) <= db.stations.Keys
  {
    written, more := have, from;
    ghost var sessions, logs, lastId := db.sessions, db.checkIns, db.lastId;
    if plan[i].kind == New || (plan[i].kind == Differs && plan[i].replace) {
      var file := s.instances[plan[i].fileIndex];
      AddedIsWanted(s, plan, i);
      ghost var at, copy;
      written, at, copy := AddSession(db, file, fileLists[file.id], now, have, t);
      OneMoreAdded(s, plan, i, from, left, logsLeft, sessions, logs, db.sessions, db.checkIns, at, copy, now, lastId);
      if NoReplace(plan) {
        OneMoreMerged(s, plan, i, from, files, list, logsLeft.Keys, sessions, logs, db.sessions, db.checkIns, at, copy, now,
                      lastId);
      }
      more := from[copy.instance.id := i];
    } else {
      NoneNewHere(s, plan, i, from, sessions, logs, now);
      if NoReplace(plan) {
        NoCopyMerged(files, list, logsLeft.Keys, HereOf(sessions, logs), from, now, i);
      }
    }
    HasMoreWanted(s, plan, i, old(db.stations.Keys), db.stations.Keys);
  }

  // Carries out a plan; `files` and `list` are the sessions of the file and
  // those here.
  method ApplyNetMerge(db: Database, s: Slice, plan: seq<MergeSession>, conflicts: seq<Conflict>, now: int,
                       ghost files: seq<Logged>, ghost list: seq<Logged>)
    returns (ghost from: map<int, nat>)
    requires db.Valid() && files == FilesOf(s) && list == db.Here() && AsMatched(plan, files, list)
    modifies db
    ensures db.Valid() && IsMerged(s, plan, old(db.sessions), old(db.checkIns), from, db.sessions, db.checkIns, now)
    ensures StationsTold(s, plan, StationsAfter(conflicts, old(db.stations)), db.stations)
    ensures forall c :: c in old(db.stations) && c !in db.stations ==> !NoReplace(plan) && !db.Used(c)
    ensures SavedAs(s.saved, |s.saved|, SavedAfter(conflicts, old(db.stations), old(db.saved)), db.saved)
    ensures NoReplace(plan) ==> Merged(files, list, old(db.checkIns.Keys), db.Here(), from, now)
  {
    var any;
    any, from := Carry(db, s, plan, conflicts, now, files, list);
    if !any {
      return;
    }
    SavedAsKeeps(s.saved, SavedAfter(conflicts, old(db.stations), old(db.saved)), db.saved);
    ClearUp(db, s, plan, from, now, StationsAfter(conflicts, old(db.stations)));
  }

  // Stations nothing refers to any more go: none that the file tells of or
  // that a session added needs.
  method ClearUp(db: Database, s: Slice, plan: seq<MergeSession>, ghost from: map<int, nat>, now: int,
                 ghost before: map<string, Details>)
    requires |plan| == |s.instances| && StationsTold(s, plan, before, db.stations) && AllSaved(s.saved, |s.saved|, db.saved)
    requires AllNew(s, plan, |plan|, from, db.sessions, db.checkIns, now)
    modifies db`stations
    ensures StationsTold(s, plan, before, db.stations)
    ensures forall c :: c in old(db.stations) && c !in db.stations ==> !db.Used(c)
  {
    ghost var all := db.stations;
    db.DeleteUnusedStations();
    forall c | c in WantedIn(s, plan) ensures c in db.stations {
      var id, k := WantedIsLogged(s, plan, from, db.sessions, db.checkIns, now, c);
      WantedIsCapital(s, plan, c);
      assert db.Used(c);
    }
    forall i | 0 <= i < |s.saved| ensures Upper(s.saved[i].station.callsign) in db.stations {
      assert EntryOf(s.saved[i]) in db.saved;
      assert db.Used(EntryOf(s.saved[i]).callsign);
    }
    ToldWithoutUnused(s, plan, before, all, db.stations);
  }

  lemma WantedIsCapital(s: Slice, plan: seq<MergeSession>, callsign: string)
    requires |plan| == |s.instances| && callsign in WantedIn(s, plan)
    ensures Upper(callsign) == callsign
  {
    assert Wanted(s, plan, |plan|, callsign);
    var i :| 0 <= i < |plan| && Adds(plan[i]) && InLog(CheckInsOf(s.checkIns, s.instances[i].id), callsign);
    var log := CheckInsOf(s.checkIns, s.instances[i].id);
    var k :| 0 <= k < |log| && Upper(log[k].callsign) == callsign;
    UpperTwice(log[k].callsign);
  }

  // All but clearing up.
  method Carry(db: Database, s: Slice, plan: seq<MergeSession>, conflicts: seq<Conflict>, now: int,
               ghost files: seq<Logged>, ghost list: seq<Logged>)
    returns (any: bool, ghost from: map<int, nat>)
    requires db.Valid() && files == FilesOf(s) && list == db.Here() && AsMatched(plan, files, list)
    modifies db
    ensures db.Valid() && IsMerged(s, plan, old(db.sessions), old(db.checkIns), from, db.sessions, db.checkIns, now)
    ensures StationsTold(s, plan, StationsAfter(conflicts, old(db.stations)), db.stations) && old(db.stations.Keys) <= db.stations.Keys
    ensures SavedAs(s.saved, |s.saved|, SavedAfter(conflicts, old(db.stations), old(db.saved)), db.saved)
    ensures any <==> !NoReplace(plan)
    ensures NoReplace(plan) ==> Merged(files, list, old(db.checkIns.Keys), db.Here(), from, now)
  {
    ghost var t := Telling(StationsAfter(conflicts, db.stations), StationsOf(s), |s.saved|, WantedIn(s, plan));
    var have;
    any, have := ClearTheWay(db, s, plan, conflicts, list, t);
    ghost var left, logs := db.sessions, db.checkIns;
    from := AddAll(db, s, plan, now, have, files, list, t);
    MergedFrom(s, plan, old(db.sessions), old(db.checkIns), left, logs, from, db.sessions, db.checkIns, now);
  }

  // What goes before any session is added.
  method ClearTheWay(db: Database, s: Slice, plan: seq<MergeSession>, conflicts: seq<Conflict>, ghost list: seq<Logged>,
                     ghost t: Telling)
    returns (any: bool, have: set<string>)
    requires db.Valid() && list == db.Here()
    requires |plan| == |s.instances| && forall i :: 0 <= i < |plan| ==> plan[i].fileIndex == i
    requires t == Telling(StationsAfter(conflicts, db.stations), StationsOf(s), |s.saved|, WantedIn(s, plan))
    modifies db`sessions, db`checkIns, db`stations, db`saved
    ensures db.Valid() && (any <==> !NoReplace(plan))
    ensures NoReplace(plan) ==> list == db.Here() && db.checkIns == old(db.checkIns)
    ensures Left(plan, |plan|, old(db.sessions), db.sessions) && LogsLeft(plan, |plan|, old(db.checkIns), db.checkIns)
    ensures KnowsAll(t, db.stations) && have <= db.stations.Keys
    ensures SavedAs(s.saved, |s.saved|, SavedAfter(conflicts, old(db.stations), old(db.saved)), db.saved)
  {
    any := DeleteReplaced(db, plan);
    var replaced := TakeDetails(db, conflicts);
    have := MergeStations(db, s, plan, t);
  }

  // Stations already in the file's saved entries or in sessions being added.
  method MergeStations(db: Database, s: Slice, plan: seq<MergeSession>, ghost t: Telling) returns (have: set<string>)
    requires |plan| == |s.instances| && forall i :: 0 <= i < |plan| ==> plan[i].fileIndex == i
    requires t == Telling(db.stations, StationsOf(s), |s.saved|, WantedIn(s, plan))
    modifies db`stations, db`saved
    ensures KnowsAll(t, db.stations) && have <= db.stations.Keys
    ensures SavedAs(s.saved, |s.saved|, old(db.saved), db.saved)
  {
    var added;
    have, added := MergeSaved(db, s, t);
    var fileLists := CheckInsBySession(s);
    var wanted := CallsignsAdded(s, plan, fileLists);
    var others := MergeOthers(db, s, wanted, t);
    have := have + others;
  }

  lemma NoneNew(list: seq<SavedStation>, saved: map<Entry, SavedRow>)
    requires AllSaved(list, |list|, saved)
    ensures CountNew(list, saved) == 0
  {
    if list != [] {
      NoneNew(list[..|list| - 1], saved);
    }
  }

  predicate NothingNew(plan: seq<MergeSession>) {
    forall i :: 0 <= i < |plan| ==> plan[i].kind != New
  }

  lemma NothingNewIff(plan: seq<MergeSession>, files: seq<Logged>, list: seq<Logged>)
    requires AsMatched(plan, files, list)
    ensures NothingNew(plan) <==> AllFound(files, list)
  {
    if NothingNew(plan) {
      forall i | 0 <= i < |files| ensures MatchOf(files, list, i).Found? {
        assert plan[i].kind != New;
      }
    }
  }

  // A merge planned and carried out, and planned again. Then there is no new
  // saved station, and the sessions found are those that merging again finds.
  method MergeTwice(db: Database, s: Slice, conflicts: seq<Conflict>, now: int) returns (second: Plan)
    requires db.Valid() && InOrder(s.instances)
    modifies db
    ensures AllPlanned(second.sessions, s, FilesOf(s), db.Here(), db.sessions, db.checkIns) && |second.sessions| == |s.instances|
    ensures second.newSaved == CountNew(s.saved, db.saved) == 0
    ensures AsMatched(second.sessions, FilesOf(s), db.Here()) && (NothingNew(second.sessions) <==> AllFound(FilesOf(s), db.Here()))
    ensures Remerged(FilesOf(s), old(db.Here()), db.Here(), now)
  {
    ghost var files, list, known := FilesOf(s), db.Here(), db.checkIns.Keys;
    NothingKnown(db);
    var first := PlanNetMerge(db, s);
    PlannedAsMatched(first.sessions, s, files, list, db.sessions, db.checkIns);
    ghost var from := ApplyNetMerge(db, s, first.sessions, conflicts, now, files, list);
    FilesListed(s);
    HereListed(db.sessions, db.checkIns);
    RemergingFinds(files, list, known, db.Here(), from, now);
    NoneNew(s.saved, db.saved);
    second := PlanNetMerge(db, s);
    PlannedAsMatched(second.sessions, s, files, db.Here(), db.sessions, db.checkIns);
    NothingNewIff(second.sessions, files, db.Here());
  }

  lemma NothingKnown(db: Database)
    requires db.Valid()
    ensures db.Here() == [] ==> db.checkIns.Keys == {}
  {
    forall id | id in db.checkIns.Keys ensures |db.Here()| > 0 {
      assert exists k :: 0 <= k < |db.sessions| && db.sessions[k].id == id;
    }
  }

  lemma PlannedAsMatched(plan: seq<MergeSession>, s: Slice, files: seq<Logged>, list: seq<Logged>, sessions: seq<Instance>,
                         checkIns: map<int, seq<CheckIn>>)
    requires |plan| == |s.instances| && AllPlanned(plan, s, files, list, sessions, checkIns)
    ensures AsMatched(plan, files, list) && NoReplace(plan)
  {
    forall i | 0 <= i < |plan|
      ensures plan[i].fileIndex == i && (plan[i].kind == New <==> MatchOf(files, list, i).None?) && !Replaces(plan[i])
    {
      assert Planned(plan[i], s, files, list, sessions, checkIns, i);
    }
  }

  // Nothing but a listed detail is asked for, and the member ID goes: of any
  // station here of which the file tells a detail differently, and no ID.
  method MemberIdIsLost(db: Database, s: Slice, now: int, e: Entry)
    requires db.Valid() && s.saved == [] && |s.others| == 1
    requires e in db.saved && e.callsign == Upper(s.others[0].callsign) && e.callsign in db.stations
    requires exists k :: 0 <= k < DETAIL_COUNT && Clash(db.stations[e.callsign][k], s.others[0].details[k])
    modifies db
    ensures e in db.saved && db.saved[e].memberId == ""
  {
    ghost var files, list, stations, saved := FilesOf(s), db.Here(), db.stations, db.saved;
    var first := PlanNetMerge(db, s);
    PlannedAsMatched(first.sessions, s, files, list, db.sessions, db.checkIns);
    ghost var t := Theirs(s.others[0], "");
    assert TheirsOf(s) == [t];
    var conflicts, ids := StationConflicts(db, TheirsOf(s));
    ListedOnce(stations, ids, t);
    var c := conflicts[0].(replace := true);
    TakingLosesId(stations, saved, t, c, IdOf(ids, e.callsign), e);
    ghost var from := ApplyNetMerge(db, s, first.sessions, [c], now, files, list);
    assert NoIdFor(s.saved, |s.saved|, e.callsign);
  }

  lemma ListedOnce(stations: map<string, Details>, ids: map<string, string>, t: Theirs)
    requires var callsign := Upper(t.station.callsign);
             callsign in stations && exists k :: 0 <= k < DETAIL_COUNT && Clash(stations[callsign][k], t.station.details[k])
    ensures var fields := Differences(stations[Upper(t.station.callsign)], IdOf(ids, Upper(t.station.callsign)), t);
            ConflictsOf(stations, ids, [t]) == [Conflict(t.station.callsign, fields, false)]
  {
    var callsign := Upper(t.station.callsign);
    var k :| 0 <= k < DETAIL_COUNT && Clash(stations[callsign][k], t.station.details[k]);
    assert k in Differences(stations[callsign], IdOf(ids, callsign), t);
    assert [t][..0] == [];
  }
}
