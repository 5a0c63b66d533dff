// Whole SFTP sessions: what a client asked and was told says what became of its
// uploads; and how much /imports can come to hold.
module SftpRuns {
  import opened Bytes
  import opened Sets
  import opened UploadStore
  import opened SftpPaths
  import opened SftpUploads

  // ---- What a client knows ----

  // An upload as its client sees it: the writes answered Ok, and whether one
  // was refused.
  datatype Open = Open(name: string, spans: seq<Span>, spoilt: bool)

  // The uploads open, those saved so far, and the files that makes.
  datatype Seen = Seen(open: map<int, Open>, saved: seq<Open>, files: map<string, seq<Byte>>)

  function Content(spans: seq<Span>): seq<Byte> {
    if Solid(spans) then Assembled(spans) else []
  }

  function After(seen: Seen, request: Request, reply: Reply): Seen {
    match request
    case OpenForWriting(name, _, _) =>
      if reply.HandleReply? then seen.(open := seen.open[reply.id := Open(name, [], false)]) else seen
    case OpenOther => seen
    case Write(id, at, data) =>
      if id !in seen.open then seen
      else if reply == Ok then
        seen.(open := seen.open[id := seen.open[id].(spans := seen.open[id].spans + [Span(at, data)])])
      else seen.(open := seen.open[id := seen.open[id].(spoilt := true)])
    case Close(id) =>
      if id !in seen.open then seen
      else if reply == Ok then
        var o := seen.open[id];
        Seen(seen.open - {id}, seen.saved + [o], seen.files[o.name := Content(o.spans)])
      else seen.(open := seen.open - {id})
    case Remove(name) => if reply == Ok then seen.(files := seen.files - {name}) else seen
  }

  function AfterAll(files: map<string, seq<Byte>>, requests: seq<Request>, replies: seq<Reply>): Seen
    requires |replies| <= |requests|
  {
    if replies == [] then Seen(map[], [], files)
    else
      var last := |replies| - 1;
      After(AfterAll(files, requests, replies[..last]), requests[last], replies[last])
  }

  // It is what the server holds.
  ghost predicate Tells(seen: Seen, handles: map<int, Handle>, writes: map<int, seq<Span>>) {
    && (forall id {:trigger seen.open[id]} {:trigger handles[id]} :: id in seen.open <==> id in handles && handles[id].Upload?)
    && (forall id {:trigger seen.open[id]} :: id in seen.open ==>
              id in writes && seen.open[id] == Open(handles[id].final, writes[id], handles[id].failed))
  }

  // What a session holds.
  datatype Held = Held(handles: map<int, Handle>, writes: map<int, seq<Span>>, files: map<string, seq<Byte>>, published: seq<Published>)

  ghost function HeldBy(s: SftpSession): Held
    reads s, s.fs
  {
    Held(s.handles, s.writes, s.fs.files, s.published)
  }

  // The files but for those still being written.
  function Settled(h: Held): map<string, seq<Byte>> {
    h.files - Temps(h.handles)
  }

  // Every upload has a hidden file of its own.
  predicate InOrder(h: Held) {
    && Apart(h.handles) && Temps(h.handles) <= h.files.Keys
    && (forall id {:trigger h.handles[id]} :: id in h.handles ==> id in h.writes)
    && (forall id {:trigger h.handles[id]} :: id in h.handles && h.handles[id].Upload? ==>
              IsHidden(h.handles[id].temp) && !IsHidden(h.handles[id].final))
    && (forall id {:trigger h.handles[id]} :: id in h.handles && h.handles[id].Upload? && !h.handles[id].failed ==>
          |Content(h.writes[id])| == h.handles[id].size <= h.handles[id].limit)
  }

  // ---- What each request does ----

  predicate Began(a: Held, b: Held, name: string, id: int) {
    && id !in a.handles && id in b.handles && b.handles == a.handles[id := b.handles[id]] && b.writes == a.writes[id := []]
    && b.handles[id].Upload? && b.handles[id].final == name && !b.handles[id].failed
    && b.handles[id].temp !in a.files && b.files == a.files[b.handles[id].temp := []] && b.published == a.published
  }

  predicate Wrote(a: Held, b: Held, id: int, at: nat, data: seq<Byte>, reply: Reply) {
    if id !in a.handles then b == a && reply == InvalidHandle
    else
      && b.published == a.published && id in a.writes && id in b.handles && b.handles == a.handles[id := b.handles[id]]
      && Written(a.handles[id], b.handles[id], at, data, reply)
      && (if a.handles[id].Upload? then SameBut(a.files, b.files, a.handles[id].temp) else b.files == a.files)
      && b.writes == if reply == Ok then a.writes[id := a.writes[id] + [Span(at, data)]] else a.writes
  }

  predicate Closed(a: Held, b: Held, id: int, reply: Reply) {
    && b.handles == a.handles - {id} && b.writes == a.writes
    && (if id !in a.handles then reply == InvalidHandle else if !a.handles[id].Upload? then reply == Ok
        else if a.handles[id].failed then reply == NothingSaved else reply == Ok || reply == CantSave)
    && if id in a.handles && a.handles[id].Upload? && reply == Ok then Saved(a, b, id)
       else
         && b.published == a.published
         && b.files == if id in a.handles && a.handles[id].Upload? then a.files - {a.handles[id].temp} else a.files
  }

  predicate Saved(a: Held, b: Held, id: int)
    requires id in a.handles && a.handles[id].Upload?
  {
    var h := a.handles[id];
    && !h.failed && id in a.writes && Solid(a.writes[id]) && |Assembled(a.writes[id])| == h.size <= h.limit
    && b.files == (a.files - {h.temp})[h.final := Assembled(a.writes[id])]
    && b.published == a.published + [Published(h.final, Assembled(a.writes[id]), a.writes[id], h.used, h.limit)]
  }

  ghost predicate Did(viewOnly: bool, a: Held, b: Held, request: Request, reply: Reply) {
    match request
    case OpenForWriting(name, exclusive, append) =>
      Opened(viewOnly, a.files, name, exclusive, append, reply) &&
      if reply.HandleReply?
      then Began(a, b, name, reply.id) && b.handles[reply.id].limit == UploadLimit(Total(a.files - {name})) > 0
      else b == a
    case OpenOther =>
      (reply.HandleReply? || reply == CantCreate) &&
      if reply.HandleReply?
      then reply.id !in a.handles && b == a.(handles := a.handles[reply.id := Other], writes := a.writes[reply.id := []])
      else b == a
    case Write(id, at, data) => Wrote(a, b, id, at, data, reply)
    case Close(id) => Closed(a, b, id, reply)
    case Remove(name) =>
      && (if viewOnly || !IsUploadName(name) then reply == NotAllowed
          else if name !in a.files then reply == NoSuchFile else reply == Ok || reply == CantRemove)
      && b == if reply == Ok then a.(files := a.files - {name}) else a
  }

  lemma IsInOrder(s: SftpSession)
    requires s.Valid()
    ensures InOrder(HeldBy(s))
  {
    TempsAreThere(s.handles, s.writes, s.fs.files, s.others, {});
    forall id | id in s.handles
      ensures id in s.writes && (s.handles[id].Upload? ==> IsHidden(s.handles[id].temp) && !IsHidden(s.handles[id].final))
      ensures s.handles[id].Upload? && !s.handles[id].failed ==>
                |Content(s.writes[id])| == s.handles[id].size <= s.handles[id].limit
    {
      FitsFile(s, id);
    }
  }

  lemma FitsFile(s: SftpSession, id: int)
    requires s.Valid() && id in s.handles
    ensures id in s.writes && Fits(s.handles[id], s.writes[id], s.fs.files, s.others)
  {
  }

  // Nothing fails that need not.
  predicate Works(request: Request, reply: Reply) {
    reply !in {CantWrite, CantSave, CantRemove} && (request.OpenOther? ==> reply.HandleReply?)
  }

  predicate AllWork(requests: seq<Request>, replies: seq<Reply>)
    requires |replies| <= |requests|
  {
    forall i :: 0 <= i < |replies| ==> Works(requests[i], replies[i])
  }

  // One request.
  method Answer(s: SftpSession, request: Request) returns (reply: Reply)
    requires s.Valid()
    modifies s`handles, s`lastId, s`writes, s`published, s.fs`files, s.fs`answers
    ensures s.Valid() && Did(s.viewOnly, old(HeldBy(s)), HeldBy(s), request, reply)
    ensures reply.HandleReply? ==> reply.id == s.lastId == old(s.lastId) + 1
    ensures !reply.HandleReply? ==> s.lastId == old(s.lastId)
    ensures old(s.fs.answers) == [] ==> s.fs.answers == [] && Works(request, reply)
  {
    match request {
      case OpenForWriting(name, exclusive, append) => reply := AnswerOpen(s, name, exclusive, append);
      case OpenOther => reply := s.Take(Other);
      case Write(id, at, data) => reply := AnswerWrite(s, id, at, data);
      case Close(id) => reply := AnswerClose(s, id);
      case Remove(name) => reply := s.Remove(name);
    }
  }

  // The hidden file's suffix is the clock's and chance's.
  method AnswerOpen(s: SftpSession, name: string, exclusive: bool, append: bool) returns (reply: Reply)
    requires s.Valid()
    modifies s`handles, s`lastId, s`writes, s.fs`files, s.fs`answers
    ensures s.Valid() && Did(s.viewOnly, old(HeldBy(s)), HeldBy(s), OpenForWriting(name, exclusive, append), reply)
    ensures reply.HandleReply? ==> reply.id == s.lastId == old(s.lastId) + 1
    ensures !reply.HandleReply? ==> s.lastId == old(s.lastId)
    ensures reply !in {CantWrite, CantSave, CantRemove} && (old(s.fs.answers) == [] ==> s.fs.answers == [])
  {
    var suffix: string := *;
    reply := s.OpenForWriting(name, exclusive, append, suffix);
  }

  method AnswerWrite(s: SftpSession, id: int, at: nat, data: seq<Byte>) returns (reply: Reply)
    requires s.Valid()
    modifies s`handles, s`writes, s.fs`files, s.fs`answers
    ensures s.Valid() && Wrote(old(HeldBy(s)), HeldBy(s), id, at, data, reply) && !reply.HandleReply?
    ensures old(s.fs.answers) == [] ==> reply != CantWrite && s.fs.answers == []
  {
    if id in s.handles {
      FitsFile(s, id);
    }
    reply := s.Write(id, at, data);
  }

  method AnswerClose(s: SftpSession, id: int) returns (reply: Reply)
    requires s.Valid()
    modifies s`handles, s`published, s.fs`files, s.fs`answers
    ensures s.Valid() && Closed(old(HeldBy(s)), HeldBy(s), id, reply) && !reply.HandleReply?
    ensures old(s.fs.answers) == [] ==> reply != CantSave && s.fs.answers == []
  {
    if id in s.handles {
      FitsFile(s, id);
    }
    reply := s.Close(id);
  }

  // ---- The client can tell ----

  // A file saved is the upload its client closed.
  predicate Saves(p: Published, o: Open) {
    p.name == o.name && p.writes == o.spans && !o.spoilt
  }

  // No reply without its reason.
  predicate Fair(viewOnly: bool, seen: Seen, request: Request, reply: Reply) {
    match request
    case OpenForWriting(name, exclusive, append) =>
      if viewOnly then reply == ReadOnly
      else if !IsUploadName(name) then reply == NotAllowed
      else
        || (reply == AlreadyExists && exclusive) || (reply == CantResume && append)
        || (reply == Full && !append) || (reply == CantCreate && !append) || (reply.HandleReply? && !append)
    case OpenOther => reply.HandleReply? || reply == CantCreate
    case Write(id, at, data) =>
      if id !in seen.open then reply == InvalidHandle || reply == NotForWriting
      else if seen.open[id].spoilt then reply == AlreadyFailed
      else
        || (reply == OverLimit && at + |data| > |Content(seen.open[id].spans)|)
        || (reply == CantResume && at > |Content(seen.open[id].spans)|)
        || ((reply == Ok || reply == CantWrite) && at <= |Content(seen.open[id].spans)|)
    case Close(id) =>
      if id !in seen.open then reply == InvalidHandle || reply == Ok
      else if seen.open[id].spoilt then reply == NothingSaved
      else reply == Ok || reply == CantSave
    case Remove(name) =>
      if viewOnly || !IsUploadName(name) then reply == NotAllowed
      else reply == NoSuchFile || reply == Ok || reply == CantRemove
  }

  lemma RequestIsFair(viewOnly: bool, seen: Seen, a: Held, b: Held, request: Request, reply: Reply)
    requires Tells(seen, a.handles, a.writes) && InOrder(a) && Did(viewOnly, a, b, request, reply)
    ensures Fair(viewOnly, seen, request, reply)
  {
  }

  // Nor one that the files there do not bear out, when nothing else happens in
  // /imports: they are those its client can tell, and the uploads still open.
  ghost predicate Borne(viewOnly: bool, seen: Seen, request: Request, reply: Reply) {
    match request
    case OpenForWriting(name, exclusive, append) =>
      var taken, limit := exclusive && name in seen.files, UploadLimit(Total(seen.files - {name}));
      viewOnly || !IsUploadName(name) ||
        (&& (reply == AlreadyExists <==> taken) && (reply == CantResume <==> append && !taken)
         && (limit == 0 && !append && !taken ==> reply == Full)
         && (reply == Full && seen.open == map[] ==> limit == 0))
    case Remove(name) => viewOnly || !IsUploadName(name) || (reply == NoSuchFile <==> name !in seen.files)
    case _ => true
  }

  lemma RequestIsBorne(viewOnly: bool, seen: Seen, a: Held, b: Held, request: Request, reply: Reply)
    requires Tells(seen, a.handles, a.writes) && InOrder(a) && Did(viewOnly, a, b, request, reply) && seen.files == Settled(a)
    ensures Borne(viewOnly, seen, request, reply)
  {
    match request {
      case OpenForWriting(name, exclusive, append) =>
        if !viewOnly && IsUploadName(name) {
          UploadIsNoTemp(a, name);
          TotalShrinks(seen.files - {name}, a.files - {name});
          if seen.open == map[] {
            NoneOpenNoTemps(seen, a);
          }
        }
      case Remove(name) =>
        if IsUploadName(name) {
          UploadIsNoTemp(a, name);
        }
      case _ =>
    }
  }

  lemma UploadIsNoTemp(h: Held, name: string)
    requires InOrder(h) && IsUploadName(name)
    ensures name !in Temps(h.handles)
  {
  }

  lemma NoneOpenNoTemps(seen: Seen, h: Held)
    requires Tells(seen, h.handles, h.writes) && seen.open == map[]
    ensures Settled(h) == h.files
  {
    assert forall id :: id in h.handles ==> !h.handles[id].Upload?;
    assert Temps(h.handles) == {};
  }

  predicate SavedAre(saved: seq<Open>, published: seq<Published>, from: nat) {
    |published| == from + |saved| && forall k :: 0 <= k < |saved| ==> Saves(published[from + k], saved[k])
  }

  // What a request does is what its client can tell from the reply.
  ghost predicate Follows(seen: Seen, next: Seen, a: Held, b: Held) {
    && Tells(next, b.handles, b.writes)
    && (seen.files == Settled(a) ==> next.files == Settled(b))
    && ((b.published == a.published && next.saved == seen.saved)
        || (exists p, o :: Saves(p, o) && b.published == a.published + [p] && next.saved == seen.saved + [o]))
  }

  lemma OpenFollows(seen: Seen, a: Held, b: Held, name: string, exclusive: bool, append: bool, id: int)
    requires Tells(seen, a.handles, a.writes) && InOrder(a) && Began(a, b, name, id)
    ensures Follows(seen, After(seen, OpenForWriting(name, exclusive, append), HandleReply(id)), a, b)
  {
    TempsGrow(a.handles, id, b.handles[id]);
    assert Settled(a) == Settled(b);
  }

  lemma WriteFollows(seen: Seen, a: Held, b: Held, id: int, at: nat, data: seq<Byte>, reply: Reply)
    requires Tells(seen, a.handles, a.writes) && Wrote(a, b, id, at, data, reply)
    ensures Follows(seen, After(seen, Write(id, at, data), reply), a, b)
  {
    if id in a.handles && a.handles[id].Upload? {
      TempsStay(a.handles, id, b.handles[id]);
      assert a.handles[id].temp in Temps(a.handles);
      assert Settled(a) == Settled(b);
    }
  }

  // What has taken its name is there; nothing else has changed.
  lemma SettledAfterClose(a: Held, b: Held, id: int, reply: Reply)
    requires InOrder(a) && Closed(a, b, id, reply)
    ensures Settled(b) == if id in a.handles && a.handles[id].Upload? && reply == Ok
                          then Settled(a)[a.handles[id].final := Assembled(a.writes[id])] else Settled(a)
  {
    if id in a.handles {
      TempsShrink(a.handles, id);
      if a.handles[id].Upload? {
        var temp, final := a.handles[id].temp, a.handles[id].final;
        assert temp in Temps(a.handles);
        FinalIsNoTemp(a, id);
        assert a.files - {temp} - Temps(b.handles) == a.files - Temps(a.handles);
        if reply == Ok {
          assert Settled(b) == Settled(a)[final := Assembled(a.writes[id])];
        } else {
          assert Settled(b) == Settled(a);
        }
      } else {
        assert Temps(b.handles) == Temps(a.handles);
      }
    } else {
      assert b.handles == a.handles;
    }
  }

  lemma FinalIsNoTemp(h: Held, id: int)
    requires InOrder(h) && id in h.handles && h.handles[id].Upload?
    ensures h.handles[id].final !in Temps(h.handles)
  {
  }

  lemma CloseFollows(seen: Seen, a: Held, b: Held, id: int, reply: Reply)
    requires Tells(seen, a.handles, a.writes) && InOrder(a) && Closed(a, b, id, reply)
    ensures Follows(seen, After(seen, Close(id), reply), a, b)
  {
    SettledAfterClose(a, b, id, reply);
    if id in a.handles && a.handles[id].Upload? && reply == Ok {
      assert Saves(b.published[|a.published|], seen.open[id]);
    }
  }

  lemma RequestFollows(viewOnly: bool, seen: Seen, a: Held, b: Held, request: Request, reply: Reply)
    requires Tells(seen, a.handles, a.writes) && InOrder(a) && Did(viewOnly, a, b, request, reply)
    ensures Follows(seen, After(seen, request, reply), a, b)
  {
    match request {
      case OpenForWriting(name, exclusive, append) =>
        if reply.HandleReply? {
          OpenFollows(seen, a, b, name, exclusive, append, reply.id);
        }
      case OpenOther =>
        if reply.HandleReply? {
          TempsGrow(a.handles, reply.id, Other);
        }
      case Write(id, at, data) => WriteFollows(seen, a, b, id, at, data, reply);
      case Close(id) => CloseFollows(seen, a, b, id, reply);
      case Remove(name) => assert a.files - {name} - Temps(a.handles) == a.files - Temps(a.handles) - {name};
    }
  }

  // ---- How much /imports can come to hold ----

  // Uploads that can all still take their names.
  predicate CanWin(handles: map<int, Handle>, ids: set<int>) {
    && (forall id :: id in ids ==> id in handles && handles[id].Upload? && !handles[id].failed)
    && forall i, j :: i in ids && j in ids && i != j ==> handles[i].final != handles[j].final
  }

  function Limits(handles: map<int, Handle>, ids: set<int>): map<int, nat> {
    map id | id in ids && id in handles && handles[id].Upload? :: handles[id].limit
  }

  function Finals(handles: map<int, Handle>, ids: set<int>): set<string> {
    set id | id in ids && id in handles && handles[id].Upload? :: handles[id].final
  }

  ghost function Sum(sizes: map<int, nat>): nat
    decreases |sizes|
  {
    if sizes == map[] then 0
    else
      var id := One(sizes);
      sizes[id] + Sum(sizes - {id})
  }

  ghost function One(sizes: map<int, nat>): (id: int)
    requires sizes != map[]
    ensures id in sizes
  {
    assert exists id :: id in sizes by {
      if forall id: int :: id !in sizes {
        assert false;
      }
    }
    var id :| id in sizes;
    id
  }

  lemma {:induction false} SumWithout(sizes: map<int, nat>, id: int)
    requires id in sizes
    ensures Sum(sizes) == sizes[id] + Sum(sizes - {id})
    decreases |sizes|
  {
    var m := One(sizes);
    if m != id {
      SumWithout(sizes - {m}, id);
      SumWithout(sizes - {id}, m);
      assert sizes - {m} - {id} == sizes - {id} - {m};
    }
  }

  lemma {:induction false} TotalShrinks(fewer: map<string, seq<Byte>>, files: map<string, seq<Byte>>)
    requires fewer.Keys <= files.Keys && forall n :: n in fewer ==> fewer[n] == files[n]
    ensures Total(fewer) <= Total(files)
    decreases |fewer|
  {
    if fewer != map[] {
      var n :| n in fewer;
      TotalWithout(fewer, n);
      TotalWithout(files, n);
      TotalShrinks(fewer - {n}, files - {n});
    }
  }

  // What the files come to once these uploads, each at its limit, have taken
  // their names.
  ghost function Comes(h: Held, ids: set<int>): nat {
    Total(Settled(h) - Finals(h.handles, ids)) + Sum(Limits(h.handles, ids))
  }

  // However the open uploads go on, there is room.
  ghost predicate Bounded(h: Held) {
    forall ids: set<int> {:trigger CanWin(h.handles, ids)} :: CanWin(h.handles, ids) ==> Comes(h, ids) <= MAX_IMPORTS
  }

  lemma WriteComes(a: Held, b: Held, id: int, at: nat, data: seq<Byte>, reply: Reply, ids: set<int>)
    requires InOrder(a) && Wrote(a, b, id, at, data, reply) && CanWin(b.handles, ids)
    ensures CanWin(a.handles, ids) && Comes(b, ids) == Comes(a, ids)
  {
    if id in a.handles && a.handles[id].Upload? {
      TempsStay(a.handles, id, b.handles[id]);
      assert a.handles[id].temp in Temps(a.handles);
      assert Settled(a) == Settled(b);
    } else {
      assert b.handles == a.handles;
    }
    assert CanWin(a.handles, ids);
    assert Limits(a.handles, ids) == Limits(b.handles, ids);
    SameFinals(a.handles, b.handles, ids);
  }

  lemma SameFinals(handles: map<int, Handle>, next: map<int, Handle>, ids: set<int>)
    requires forall id :: id in ids ==>
              id in handles && id in next && handles[id].Upload? && next[id].Upload? && handles[id].final == next[id].final
    ensures Finals(handles, ids) == Finals(next, ids)
  {
    forall n | n in Finals(handles, ids) ensures n in Finals(next, ids) {
      var id :| id in ids && handles[id].final == n;
      assert next[id].final == n;
    }
    forall n | n in Finals(next, ids) ensures n in Finals(handles, ids) {
      var id :| id in ids && next[id].final == n;
      assert handles[id].final == n;
    }
  }

  // A file saved takes the place its limit had.
  lemma SavedComes(a: Held, b: Held, id: int, ids: set<int>)
    requires InOrder(a) && id in a.handles && a.handles[id].Upload? && Closed(a, b, id, Ok) && CanWin(b.handles, ids)
    requires a.handles[id].final !in Finals(a.handles, ids)
    ensures CanWin(a.handles, ids + {id})
    ensures Comes(b, ids) + a.handles[id].limit == Comes(a, ids + {id}) + a.handles[id].size
  {
    var h, all := a.handles[id], ids + {id};
    SettledAfterClose(a, b, id, Ok);
    SameFinals(a.handles, b.handles, ids);
    forall i | i in ids ensures a.handles[i].final != h.final {
      assert a.handles[i].final in Finals(a.handles, ids);
    }
    assert Limits(a.handles, all) - {id} == Limits(b.handles, ids);
    SumWithout(Limits(a.handles, all), id);
    FinalsMore(a.handles, ids, id);
    var left := Settled(b) - Finals(b.handles, ids);
    TotalWithout(left, h.final);
    assert left - {h.final} == Settled(a) - Finals(a.handles, all);
  }

  lemma FinalsMore(handles: map<int, Handle>, ids: set<int>, id: int)
    requires id in handles && handles[id].Upload?
    ensures Finals(handles, ids + {id}) == Finals(handles, ids) + {handles[id].final}
  {
    forall n | n in Finals(handles, ids) + {handles[id].final} ensures n in Finals(handles, ids + {id}) {
      if n in Finals(handles, ids) {
        var i :| i in ids && i in handles && handles[i].Upload? && handles[i].final == n;
        assert i in ids + {id};
      } else {
        assert id in ids + {id};
      }
    }
  }

  // Whatever becomes of an upload that is closed, there is still room.
  lemma CloseComes(a: Held, b: Held, id: int, reply: Reply, ids: set<int>)
    requires InOrder(a) && Bounded(a) && Closed(a, b, id, reply) && CanWin(b.handles, ids)
    ensures Comes(b, ids) <= MAX_IMPORTS
  {
    assert CanWin(a.handles, ids);
    SettledAfterClose(a, b, id, reply);
    SameFinals(a.handles, b.handles, ids);
    assert Limits(a.handles, ids) == Limits(b.handles, ids);
    if id in a.handles && a.handles[id].Upload? && reply == Ok {
      if a.handles[id].final in Finals(a.handles, ids) {
        assert Settled(b) - Finals(b.handles, ids) == Settled(a) - Finals(a.handles, ids);
      } else {
        SavedComes(a, b, id, ids);
      }
    }
  }

  // No upload but spoilt ones.
  predicate NoneLive(handles: map<int, Handle>) {
    forall id :: id in handles && handles[id].Upload? ==> handles[id].failed
  }

  lemma OpenComes(a: Held, b: Held, name: string, id: int, ids: set<int>)
    requires InOrder(a) && Bounded(a) && Began(a, b, name, id) && NoneLive(a.handles) && CanWin(b.handles, ids)
    requires b.handles[id].limit == UploadLimit(Total(a.files - {name})) > 0
    ensures Comes(b, ids) <= MAX_IMPORTS
  {
    TempsGrow(a.handles, id, b.handles[id]);
    assert Settled(a) == Settled(b);
    forall i | i in ids ensures i == id {
      assert i in b.handles;
    }
    if id in ids {
      assert ids == {id};
      assert Limits(b.handles, ids) - {id} == map[];
      SumWithout(Limits(b.handles, ids), id);
      FinalsMore(b.handles, {}, id);
      assert {} + {id} == ids && Finals(b.handles, {}) == {};
      TotalShrinks(Settled(b) - {name}, a.files - {name});
      assert Finals(b.handles, ids) == {name};
    } else {
      assert ids == {};
      assert CanWin(a.handles, ids);
      assert Finals(b.handles, ids) == Finals(a.handles, ids) == {} && Limits(b.handles, ids) == Limits(a.handles, ids);
    }
  }

  lemma RemoveComes(a: Held, b: Held, name: string, ids: set<int>)
    requires Bounded(a) && b == a.(files := a.files - {name}) && CanWin(b.handles, ids)
    ensures Comes(b, ids) <= MAX_IMPORTS
  {
    assert CanWin(a.handles, ids);
    TotalShrinks(Settled(b) - Finals(b.handles, ids), Settled(a) - Finals(a.handles, ids));
  }

  lemma OtherComes(a: Held, b: Held, id: int, ids: set<int>)
    requires id !in a.handles && b.handles == a.handles[id := Other] && b.files == a.files && CanWin(b.handles, ids)
    ensures CanWin(a.handles, ids) && Comes(b, ids) == Comes(a, ids)
  {
    TempsGrow(a.handles, id, Other);
    assert id !in ids;
    SameFinals(a.handles, b.handles, ids);
    assert Limits(a.handles, ids) == Limits(b.handles, ids);
    assert Temps(a.handles) == Temps(b.handles);
  }

  // Whatever is asked for, there stays room, if no upload is begun beside
  // another that can still be saved.
  lemma StaysBounded(viewOnly: bool, a: Held, b: Held, request: Request, reply: Reply)
    requires InOrder(a) && Bounded(a) && Did(viewOnly, a, b, request, reply)
    requires request.OpenForWriting? && reply.HandleReply? ==> NoneLive(a.handles)
    ensures Bounded(b)
  {
    forall ids: set<int> | CanWin(b.handles, ids) ensures Comes(b, ids) <= MAX_IMPORTS {
      match request {
        case OpenForWriting(name, _, _) =>
          if reply.HandleReply? {
            OpenComes(a, b, name, reply.id, ids);
          }
        case OpenOther =>
          if reply.HandleReply? {
            OtherComes(a, b, reply.id, ids);
          }
        case Write(id, at, data) => WriteComes(a, b, id, at, data, reply, ids);
        case Close(id) => CloseComes(a, b, id, reply, ids);
        case Remove(name) =>
          if reply == Ok {
            RemoveComes(a, b, name, ids);
          }
      }
    }
  }

  // ---- A whole session ----

  predicate NoneOpen(seen: Seen) {
    forall id {:trigger seen.open[id]} :: id in seen.open ==> seen.open[id].spoilt
  }

  // No upload is begun while another can still be saved.
  predicate OneAtATime(files: map<string, seq<Byte>>, requests: seq<Request>, replies: seq<Reply>)
    requires |replies| <= |requests|
  {
    forall i :: 0 <= i < |replies| && requests[i].OpenForWriting? && replies[i].HandleReply? ==>
      NoneOpen(AfterAll(files, requests, replies[..i]))
  }

  lemma OneMoreReply(files: map<string, seq<Byte>>, requests: seq<Request>, replies: seq<Reply>, reply: Reply)
    requires |replies| < |requests|
    ensures AfterAll(files, requests, replies + [reply]) == After(AfterAll(files, requests, replies), requests[|replies|], reply)
    ensures OneAtATime(files, requests, replies + [reply]) ==>
              && OneAtATime(files, requests, replies)
              && (requests[|replies|].OpenForWriting? && reply.HandleReply? ==> NoneOpen(AfterAll(files, requests, replies)))
  {
    var more := replies + [reply];
    assert more[..|replies|] == replies;
    forall i | 0 <= i < |replies| ensures more[..i] == replies[..i] && more[i] == replies[i] {
    }
  }

  predicate NewIds(replies: seq<Reply>, last: int) {
    && (forall i :: 0 <= i < |replies| && replies[i].HandleReply? ==> replies[i].id <= last)
    && forall i, j :: 0 <= i < j < |replies| && replies[i].HandleReply? && replies[j].HandleReply? ==>
          replies[i].id != replies[j].id
  }

  // Whatever is asked, in any order, and whatever happens in /imports
  // meanwhile, what is saved is whole and what the client closed, and no hidden
  // file outlives the session. If nothing else happens there, /imports ends as
  // the client can tell; and within its limit, if uploads came one at a time.
  method Serve(s: SftpSession, requests: seq<Request>, alone: bool) returns (replies: seq<Reply>)
    requires s.Valid() && s.handles == map[]
    modifies s, s.fs`files, s.fs`answers
    ensures s.Valid() && s.handles == map[] && |replies| == |requests| && NewIds(replies, s.lastId)
    ensures Hidden(s.fs.files) == s.others && (alone ==> s.others == old(s.others))
    ensures old(s.published) <= s.published && (forall p :: p in s.published ==> IsWhole(p))
    ensures AllFair(s.viewOnly, old(s.fs.files), requests, replies)
    ensures SavedAre(AfterAll(old(s.fs.files), requests, replies).saved, s.published, |old(s.published)|)
    ensures old(s.fs.answers) == [] ==> AllWork(requests, replies)
    ensures alone ==> AllBorne(s.viewOnly, old(s.fs.files), requests, replies)
    ensures alone ==> s.fs.files == AfterAll(old(s.fs.files), requests, replies).files
    ensures alone && OneAtATime(old(s.fs.files), requests, replies) && old(Total(s.fs.files)) <= MAX_IMPORTS ==>
              Total(s.fs.files) <= MAX_IMPORTS
  {
    replies := [];
    ghost var files, before, seen := s.fs.files, s.published, AfterAll(s.fs.files, requests, []);
    StartsBounded(HeldBy(s));
    while |replies| < |requests|
      invariant s.Valid() && |replies| <= |requests| && NewIds(replies, s.lastId)
      invariant alone ==> s.others == old(s.others)
      invariant old(s.fs.answers) == [] ==> s.fs.answers == [] && AllWork(requests, replies)
      invariant Tracks(s.viewOnly, files, before, alone, requests, replies, seen, HeldBy(s))
    {
      var reply := ServeNext(s, requests, replies, alone, files, before, seen);
      seen := After(seen, requests[|replies|], reply);
      replies := replies + [reply];
    }
    EndsBounded(HeldBy(s));
    s.End();
  }

  // The next request, and what happens in /imports before it.
  method ServeNext(s: SftpSession, requests: seq<Request>, replies: seq<Reply>, alone: bool,
                   ghost files: map<string, seq<Byte>>, ghost before: seq<Published>, ghost seen: Seen) returns (reply: Reply)
    requires s.Valid() && |replies| < |requests| && NewIds(replies, s.lastId)
    requires Tracks(s.viewOnly, files, before, alone, requests, replies, seen, HeldBy(s))
    modifies s`handles, s`lastId, s`writes, s`published, s`others, s.fs`files, s.fs`answers
    ensures s.Valid() && (alone ==> s.others == old(s.others))
    ensures Tracks(s.viewOnly, files, before, alone, requests, replies + [reply], After(seen, requests[|replies|], reply), HeldBy(s))
    ensures NewIds(replies + [reply], s.lastId)
    ensures old(s.fs.answers) == [] ==> s.fs.answers == [] && Works(requests[|replies|], reply)
  {
    if !alone {
      s.Elsewhere();
    }
    ghost var a := HeldBy(s);
    IsInOrder(s);
    reply := Answer(s, requests[|replies|]);
    TracksOn(s.viewOnly, files, before, alone, requests, replies, seen, a, HeldBy(s), reply);
  }

  predicate AllFair(viewOnly: bool, files: map<string, seq<Byte>>, requests: seq<Request>, replies: seq<Reply>)
    requires |replies| <= |requests|
  {
    forall i :: 0 <= i < |replies| ==> Fair(viewOnly, AfterAll(files, requests, replies[..i]), requests[i], replies[i])
  }

  ghost predicate AllBorne(viewOnly: bool, files: map<string, seq<Byte>>, requests: seq<Request>, replies: seq<Reply>)
    requires |replies| <= |requests|
  {
    forall i :: 0 <= i < |replies| ==> Borne(viewOnly, AfterAll(files, requests, replies[..i]), requests[i], replies[i])
  }

  ghost predicate Tracks(viewOnly: bool, files: map<string, seq<Byte>>, before: seq<Published>, alone: bool, requests: seq<Request>,
                         replies: seq<Reply>, seen: Seen, h: Held)
  {
    && |replies| <= |requests| && seen == AfterAll(files, requests, replies) && Tells(seen, h.handles, h.writes)
    && before <= h.published && SavedAre(seen.saved, h.published, |before|)
    && AllFair(viewOnly, files, requests, replies)
    && (alone ==> seen.files == Settled(h) && AllBorne(viewOnly, files, requests, replies))
    && (alone && OneAtATime(files, requests, replies) && Total(files) <= MAX_IMPORTS ==> Bounded(h))
  }

  lemma TracksOn(viewOnly: bool, files: map<string, seq<Byte>>, before: seq<Published>, alone: bool, requests: seq<Request>,
                 replies: seq<Reply>, seen: Seen, a: Held, b: Held, reply: Reply)
    requires Tracks(viewOnly, files, before, alone, requests, replies, seen, a) && |replies| < |requests|
    requires InOrder(a) && Did(viewOnly, a, b, requests[|replies|], reply)
    ensures Tracks(viewOnly, files, before, alone, requests, replies + [reply], After(seen, requests[|replies|], reply), b)
  {
    RequestFollows(viewOnly, seen, a, b, requests[|replies|], reply);
    RequestIsFair(viewOnly, seen, a, b, requests[|replies|], reply);
    OneMoreReply(files, requests, replies, reply);
    MoreFair(viewOnly, files, requests, replies, reply);
    if alone {
      RequestIsBorne(viewOnly, seen, a, b, requests[|replies|], reply);
      MoreBorne(viewOnly, files, requests, replies, reply);
    }
    if alone && OneAtATime(files, requests, replies + [reply]) && Total(files) <= MAX_IMPORTS {
      StaysBounded(viewOnly, a, b, requests[|replies|], reply);
    }
  }

  lemma MoreFair(viewOnly: bool, files: map<string, seq<Byte>>, requests: seq<Request>, replies: seq<Reply>, reply: Reply)
    requires |replies| < |requests| && AllFair(viewOnly, files, requests, replies)
    requires Fair(viewOnly, AfterAll(files, requests, replies), requests[|replies|], reply)
    ensures AllFair(viewOnly, files, requests, replies + [reply])
  {
    var more := replies + [reply];
    assert more[..|replies|] == replies;
    forall i | 0 <= i < |replies| ensures more[..i] == replies[..i] && more[i] == replies[i] {
    }
  }

  lemma MoreBorne(viewOnly: bool, files: map<string, seq<Byte>>, requests: seq<Request>, replies: seq<Reply>, reply: Reply)
    requires |replies| < |requests| && AllBorne(viewOnly, files, requests, replies)
    requires Borne(viewOnly, AfterAll(files, requests, replies), requests[|replies|], reply)
    ensures AllBorne(viewOnly, files, requests, replies + [reply])
  {
    var more := replies + [reply];
    assert more[..|replies|] == replies;
    forall i | 0 <= i < |replies| ensures more[..i] == replies[..i] && more[i] == replies[i] {
    }
  }

  lemma StartsBounded(h: Held)
    requires h.handles == map[]
    ensures Settled(h) == h.files && (Total(h.files) <= MAX_IMPORTS ==> Bounded(h))
  {
    assert Temps(h.handles) == {} && Settled(h) == h.files;
    forall ids: set<int> | CanWin(h.handles, ids) ensures Comes(h, ids) == Total(h.files) {
      NoneIn(ids);
      assert Finals(h.handles, ids) == {} && Limits(h.handles, ids) == map[] && h.files - {} == h.files;
    }
  }

  lemma EndsBounded(h: Held)
    ensures Bounded(h) ==> Total(Settled(h)) <= MAX_IMPORTS
  {
    assert CanWin(h.handles, {});
    assert Finals(h.handles, {}) == {} && Limits(h.handles, {}) == map[] && Settled(h) - {} == Settled(h);
  }

  // ---- And when there isn't room ----

  // Open uploads, written to their limits and closed one after the other, if
  // nothing fails: /imports comes to just what was reckoned.
  method FillUp(s: SftpSession, ids: set<int>)
    requires s.Valid() && CanWin(s.handles, ids) && s.fs.answers == []
    modifies s`handles, s`writes, s`published, s.fs`files, s.fs`answers
    ensures s.Valid() && s.handles == old(s.handles) - ids
    ensures Total(Settled(HeldBy(s))) == old(Comes(HeldBy(s), ids))
    decreases |ids|
  {
    if ids == {} {
      NothingToFill(HeldBy(s), ids);
    } else {
      var id := AnyOf(ids);
      FillOne(s, ids, id);
      FillUp(s, ids - {id});
      OneAndTheRest(old(s.handles), ids, id);
    }
  }

  lemma NothingToFill(h: Held, ids: set<int>)
    requires ids == {}
    ensures Comes(h, ids) == Total(Settled(h)) && h.handles - ids == h.handles
  {
    EmptyComes(h);
  }

  lemma OneAndTheRest(handles: map<int, Handle>, ids: set<int>, id: int)
    requires id in ids
    ensures handles - {id} - (ids - {id}) == handles - ids
  {
  }

  method FillOne(s: SftpSession, ghost ids: set<int>, id: int)
    requires s.Valid() && CanWin(s.handles, ids) && id in ids && s.fs.answers == []
    modifies s`handles, s`writes, s`published, s.fs`files, s.fs`answers
    ensures s.Valid() && s.fs.answers == [] && s.handles == old(s.handles) - {id}
    ensures CanWin(s.handles, ids - {id}) && Comes(HeldBy(s), ids - {id}) == old(Comes(HeldBy(s), ids))
  {
    WriteFull(s, ids, id);
    CloseFull(s, ids, id);
  }

  method WriteFull(s: SftpSession, ghost ids: set<int>, id: int)
    requires s.Valid() && CanWin(s.handles, ids) && id in ids && s.fs.answers == []
    modifies s`handles, s`writes, s.fs`files, s.fs`answers
    ensures s.Valid() && s.fs.answers == [] && s.handles - {id} == old(s.handles) - {id}
    ensures CanWin(s.handles, ids) && s.handles[id].size == s.handles[id].limit
    ensures Comes(HeldBy(s), ids) == old(Comes(HeldBy(s), ids))
  {
    FitsFile(s, id);
    ghost var a := HeldBy(s);
    IsInOrder(s);
    var data := Zeros(s.handles[id].limit);
    var reply := AnswerWrite(s, id, 0, data);
    WrittenFull(a, HeldBy(s), id, data, reply, ids);
  }

  method CloseFull(s: SftpSession, ghost ids: set<int>, id: int)
    requires s.Valid() && CanWin(s.handles, ids) && id in ids && s.handles[id].size == s.handles[id].limit && s.fs.answers == []
    modifies s`handles, s`published, s.fs`files, s.fs`answers
    ensures s.Valid() && s.fs.answers == [] && s.handles == old(s.handles) - {id}
    ensures CanWin(s.handles, ids - {id}) && Comes(HeldBy(s), ids - {id}) == old(Comes(HeldBy(s), ids))
  {
    ghost var b := HeldBy(s);
    IsInOrder(s);
    var reply := AnswerClose(s, id);
    ClosedFull(b, HeldBy(s), id, ids);
  }

  lemma ClosedFull(a: Held, b: Held, id: int, ids: set<int>)
    requires InOrder(a) && CanWin(a.handles, ids) && id in ids && a.handles[id].size == a.handles[id].limit && Closed(a, b, id, Ok)
    ensures CanWin(b.handles, ids - {id}) && Comes(b, ids - {id}) == Comes(a, ids)
  {
    var rest := ids - {id};
    OthersWin(a.handles, ids, id);
    SavedComes(a, b, id, rest);
    assert rest + {id} == ids;
  }

  lemma OthersWin(handles: map<int, Handle>, ids: set<int>, id: int)
    requires CanWin(handles, ids) && id in ids
    ensures CanWin(handles - {id}, ids - {id}) && handles[id].final !in Finals(handles, ids - {id})
  {
  }

  function Zeros(count: nat): (data: seq<Byte>)
    ensures |data| == count
  {
    seq(count, i => 0)
  }

  lemma WrittenFull(a: Held, b: Held, id: int, data: seq<Byte>, reply: Reply, left: set<int>)
    requires InOrder(a) && CanWin(a.handles, left) && id in left && Wrote(a, b, id, 0, data, reply) && reply != CantWrite
    requires |data| == a.handles[id].limit >= a.handles[id].size
    ensures reply == Ok && b.handles[id] == a.handles[id].(size := a.handles[id].limit) && b.handles.Keys == a.handles.Keys
    ensures b.handles - {id} == a.handles - {id} && CanWin(b.handles, left) && Comes(b, left) == Comes(a, left)
  {
    assert CanWin(b.handles, left);
    WriteComes(a, b, id, 0, data, reply, left);
  }

  lemma EmptyComes(h: Held)
    ensures Comes(h, {}) == Total(Settled(h))
  {
    assert Finals(h.handles, {}) == {} && Limits(h.handles, {}) == map[] && Settled(h) - {} == Settled(h);
  }

  // /imports passes its limit: with 76 MB there, two uploads begun before either
  // is written to may each grow to 24 MB.
  method TwoAtOnce() returns (s: SftpSession)
    ensures s.handles == map[] && Total(s.fs.files) == 124 * MB > MAX_IMPORTS
  {
    s := BeginTwo();
    TwoCome(HeldBy(s));
    FillUp(s, {1, 2});
    assert s.handles == map[] && Temps(s.handles) == {} && s.fs.files - {} == s.fs.files;
  }

  method BeginTwo() returns (s: SftpSession)
    ensures s.Valid() && fresh(s) && fresh(s.fs) && s.fs.answers == [] && TwoBegun(HeldBy(s))
  {
    s := BeginOne();
    ghost var a := HeldBy(s);
    NextFits(a);
    var reply := s.OpenForWriting("b.qlnet", false, false, "2");
    assert reply.HandleReply?;
    SecondIs(a, HeldBy(s));
  }

  method BeginOne() returns (s: SftpSession)
    ensures s.Valid() && fresh(s) && fresh(s.fs) && s.fs.answers == [] && !s.viewOnly && s.lastId == 1 && OneBegun(HeldBy(s))
  {
    var fs := new FileSystem(OLD, []);
    s := new SftpSession(fs, false);
    AreUploads();
    StillOld();
    var reply := s.OpenForWriting("a.qlnet", false, false, "1");
  }

  lemma NextFits(a: Held)
    requires OneBegun(a)
    ensures IsUploadName("b.qlnet") && Total(a.files - {"b.qlnet"}) == 76 * MB && TempName("b.qlnet", "2") !in a.files
  {
    AreUploads();
    StillOld();
    assert TempName("b.qlnet", "2")[1] == 'b' && TempName("a.qlnet", "1")[1] == 'a' && TempName("b.qlnet", "2")[0] == '.';
    TotalOfOneMore(OLD, TempName("a.qlnet", "1"), []);
    assert a.files - {"b.qlnet"} == a.files;
  }

  lemma SecondIs(a: Held, b: Held)
    requires OneBegun(a) && 2 in b.handles && b.handles == a.handles[2 := b.handles[2]]
    requires IsFresh(b.handles[2], "b.qlnet", 76 * MB) && b.handles[2].temp == TempName("b.qlnet", "2")
    requires b.files == a.files[TempName("b.qlnet", "2") := []]
    ensures TwoBegun(b)
  {
    assert Temps(b.handles) == {TempName("a.qlnet", "1"), TempName("b.qlnet", "2")} by {
      assert b.handles[1].temp in Temps(b.handles) && b.handles[2].temp in Temps(b.handles);
    }
    assert TempName("a.qlnet", "1")[0] == '.' == TempName("b.qlnet", "2")[0];
    assert Settled(b) == OLD;
  }

  const MB: nat := 1024 * 1024

  // Four uploads of 19 MB, each within its own limit.
  const OLD: map<string, seq<Byte>> := map["w.qlnet" := Zeros(19 * MB), "x.qlnet" := Zeros(19 * MB), "y.qlnet" := Zeros(19 * MB),
                                           "z.qlnet" := Zeros(19 * MB)]

  lemma AreUploads()
    ensures IsUploadName("a.qlnet") && IsUploadName("b.qlnet")
  {
    assert "a.qlnet"[1..] == ".qlnet" && "b.qlnet"[1..] == ".qlnet";
  }

  lemma TotalOfOneMore(files: map<string, seq<Byte>>, name: string, content: seq<Byte>)
    requires name !in files
    ensures Total(files[name := content]) == Total(files) + |content|
  {
    TotalWithout(files[name := content], name);
    assert files[name := content] - {name} == files;
  }

  lemma StillOld()
    ensures OLD - {"a.qlnet"} == OLD && Total(OLD) == 76 * MB
  {
    var one := map["w.qlnet" := Zeros(19 * MB)];
    var two := one["x.qlnet" := Zeros(19 * MB)];
    var three := two["y.qlnet" := Zeros(19 * MB)];
    TotalOfOneMore(map[], "w.qlnet", Zeros(19 * MB));
    assert one == map[]["w.qlnet" := Zeros(19 * MB)];
    TotalOfOneMore(one, "x.qlnet", Zeros(19 * MB));
    TotalOfOneMore(two, "y.qlnet", Zeros(19 * MB));
    TotalOfOneMore(three, "z.qlnet", Zeros(19 * MB));
    assert OLD == three["z.qlnet" := Zeros(19 * MB)];
  }

  // The first of them is begun, with 24 MB left.
  predicate OneBegun(h: Held) {
    && h.handles.Keys == {1} && h.handles[1].Upload? && !h.handles[1].failed
    && h.handles[1].final == "a.qlnet" && h.handles[1].limit == 24 * MB && h.handles[1].temp == TempName("a.qlnet", "1")
    && h.files == OLD[TempName("a.qlnet", "1") := []]
  }

  predicate TwoBegun(h: Held) {
    && h.handles.Keys == {1, 2} && h.handles[1].Upload? && !h.handles[1].failed && h.handles[2].Upload? && !h.handles[2].failed
    && h.handles[1].final == "a.qlnet" && h.handles[1].limit == 24 * MB && h.handles[2].final == "b.qlnet" && h.handles[2].limit == 24 * MB
    && Settled(h) == OLD
  }

  lemma TwoCome(h: Held)
    requires TwoBegun(h)
    ensures CanWin(h.handles, {1, 2}) && Comes(h, {1, 2}) == 124 * MB
  {
    var ids := {1, 2};
    var limits := Limits(h.handles, ids);
    SumWithout(limits, 1);
    SumWithout(limits - {1}, 2);
    assert limits - {1} - {2} == map[];
    assert OLD - Finals(h.handles, ids) == OLD by {
      assert Finals(h.handles, ids) <= {"a.qlnet", "b.qlnet"};
    }
    StillOld();
  }
}
