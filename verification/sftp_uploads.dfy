// Uploads over SFTP: each grows in a hidden file of its own, and takes its
// name only once it is whole.
module SftpUploads {
  import opened Bytes
  import opened Sets
  import opened UploadStore
  import opened SftpPaths

  datatype Reply =
    | Ok | HandleReply(id: int) | InvalidHandle | NoSuchFile | NotForWriting | AlreadyFailed | OverLimit | CantResume
    | CantWrite | ReadOnly | NotAllowed | AlreadyExists | Full | CantCreate | CantSave | NothingSaved | CantRemove

  // An open handle. `used` records what /imports held when an upload was
  // opened.
  datatype Handle =
    | Other
    | Upload(temp: string, final: string, used: nat, limit: nat, size: nat, failed: bool)

  // A file that took its name: what its writes were, and the limit it had.
  datatype Published = Published(name: string, content: seq<Byte>, writes: seq<Span>, used: nat, limit: nat)

  // Whole: exactly what was written, within a limit that fit in /imports.
  predicate IsWhole(p: Published) {
    && Solid(p.writes) && p.content == Assembled(p.writes)
    && |p.content| <= p.limit <= MAX_UPLOAD && p.used + p.limit <= MAX_IMPORTS
  }

  datatype Request =
    | OpenForWriting(name: string, exclusive: bool, append: bool)
    | OpenOther
    | Write(id: int, at: nat, data: seq<Byte>)
    | Close(id: int)
    | Remove(name: string)

  predicate IsFresh(h: Handle, name: string, used: nat) {
    h.Upload? && h.final == name && h.used == used && h.limit == UploadLimit(used) && h.size == 0 && !h.failed
  }

  function TempName(name: string, suffix: string): string {
    "." + name + ".tmp-" + suffix
  }

  // Why an upload is or isn't begun.
  ghost predicate Opened(viewOnly: bool, files: map<string, seq<Byte>>, name: string, exclusive: bool, append: bool, reply: Reply) {
    if viewOnly then reply == ReadOnly
    else if !IsUploadName(name) then reply == NotAllowed
    else if name in files && exclusive then reply == AlreadyExists
    else if append then reply == CantResume
    else if UploadLimit(Total(files - {name})) == 0 then reply == Full
    else reply.HandleReply? || reply == CantCreate
  }

  // A write goes through to the end, or spoils its upload for good.
  predicate Written(before: Handle, after: Handle, at: nat, data: seq<Byte>, reply: Reply) {
    if !before.Upload? then reply == NotForWriting && after == before
    else if before.failed then reply == AlreadyFailed && after == before
    else if at + |data| > before.limit then reply == OverLimit && after == before.(failed := true)
    else if at > before.size then reply == CantResume && after == before.(failed := true)
    else if reply == Ok then
      after == before.(size := if at + |data| > before.size then at + |data| else before.size)
    else reply == CantWrite && after == before.(failed := true)
  }

  // Temporary files in use by open uploads.
  function Temps(handles: map<int, Handle>): set<string> {
    set id | id in handles && handles[id].Upload? :: handles[id].temp
  }

  predicate Fits(h: Handle, spans: seq<Span>, files: map<string, seq<Byte>>, others: set<string>) {
    h.Upload? ==>
      && h.temp in files && IsHidden(h.temp) && h.temp !in others
      && h.final != [] && !IsHidden(h.final)
      && h.size <= h.limit <= MAX_UPLOAD && h.used + h.limit <= MAX_IMPORTS
      && Solid(spans)
      && (!h.failed ==> files[h.temp] == Assembled(spans) && |files[h.temp]| == h.size)
  }

  predicate Apart(handles: map<int, Handle>) {
    forall a, b :: a in handles && b in handles && a != b && handles[a].Upload? && handles[b].Upload? ==>
      handles[a].temp != handles[b].temp
  }

  // Every open upload fits its file, and the hidden files are theirs, those of
  // others, and `extra`.
  predicate Sound(handles: map<int, Handle>, writes: map<int, seq<Span>>, files: map<string, seq<Byte>>,
                  others: set<string>, extra: set<string>) {
    && (forall id :: id in handles ==> id in writes && Fits(handles[id], writes[id], files, others))
    && Apart(handles)
    && Hidden(files) == others + Temps(handles) + extra
  }

  lemma TempsGrow(handles: map<int, Handle>, id: int, h: Handle)
    requires id !in handles
    ensures Temps(handles[id := h]) == Temps(handles) + if h.Upload? then {h.temp} else {}
  {
    var more := handles[id := h];
    forall n | n in Temps(handles)
      ensures n in Temps(more)
    {
      var i :| i in handles && handles[i].Upload? && handles[i].temp == n;
      assert more[i] == handles[i];
    }
    if h.Upload? {
      assert more[id].temp in Temps(more);
    }
  }

  // The same files for the same uploads.
  lemma TempsStay(handles: map<int, Handle>, id: int, h: Handle)
    requires id in handles && handles[id].Upload? && h.Upload? && h.temp == handles[id].temp
    ensures Temps(handles[id := h]) == Temps(handles)
  {
    var next := handles[id := h];
    forall n | n in Temps(handles)
      ensures n in Temps(next)
    {
      var i :| i in handles && handles[i].Upload? && handles[i].temp == n;
      assert next[i].temp == n;
    }
  }

  lemma TempsShrink(handles: map<int, Handle>, id: int)
    requires id in handles && Apart(handles)
    ensures Temps(handles - {id}) == Temps(handles) - if handles[id].Upload? then {handles[id].temp} else {}
  {
    var fewer := handles - {id};
    forall n | n in Temps(handles) && (handles[id].Upload? ==> n != handles[id].temp)
      ensures n in Temps(fewer)
    {
      var i :| i in handles && handles[i].Upload? && handles[i].temp == n;
      assert fewer[i].temp == n;
    }
  }

  // A new handle, its upload's file empty.
  lemma TakeKeeps(handles: map<int, Handle>, writes: map<int, seq<Span>>, files: map<string, seq<Byte>>,
                  others: set<string>, id: int, h: Handle)
    requires id !in handles
    requires h.Upload? ==>
               && h.temp in files && h.temp !in others && h.temp !in Temps(handles)
               && IsHidden(h.temp) && files[h.temp] == [] && h.final != [] && !IsHidden(h.final)
               && !h.failed && h.size == 0 && h.limit <= MAX_UPLOAD && h.used + h.limit <= MAX_IMPORTS
    requires Sound(handles, writes, files, others, if h.Upload? then {h.temp} else {})
    ensures Sound(handles[id := h], writes[id := []], files, others, {})
  {
    var next, nextWrites := handles[id := h], writes[id := []];
    TempsGrow(handles, id, h);
    forall i | i in next
      ensures i in nextWrites && Fits(next[i], nextWrites[i], files, others)
    {
      if i != id {
        assert Fits(handles[i], writes[i], files, others);
      }
    }
    forall a, b | a in next && b in next && a != b && next[a].Upload? && next[b].Upload?
      ensures next[a].temp != next[b].temp
    {
      assert a != id ==> handles[a].temp in Temps(handles);
      assert b != id ==> handles[b].temp in Temps(handles);
    }
  }

  // A write to one upload's own file.
  lemma WriteKeeps(handles: map<int, Handle>, writes: map<int, seq<Span>>, files: map<string, seq<Byte>>, others: set<string>,
                   id: int, h: Handle, spans: seq<Span>, nextFiles: map<string, seq<Byte>>)
    requires Sound(handles, writes, files, others, {})
    requires id in handles && handles[id].Upload? && h.Upload? && h.temp == handles[id].temp
    requires SameBut(files, nextFiles, h.temp)
    requires Fits(h, spans, nextFiles, others)
    ensures Sound(handles[id := h], writes[id := spans], nextFiles, others, {})
  {
    var next, nextWrites := handles[id := h], writes[id := spans];
    TempsStay(handles, id, h);
    forall i | i in next
      ensures i in nextWrites && Fits(next[i], nextWrites[i], nextFiles, others)
    {
      if i != id {
        assert Fits(handles[i], writes[i], files, others);
      }
    }
    assert Hidden(nextFiles) == Hidden(files);
  }

  lemma WholeSpanFits(h: Handle, spans: seq<Span>, files: map<string, seq<Byte>>, nextFiles: map<string, seq<Byte>>,
                      others: set<string>, at: nat, data: seq<Byte>)
    requires h.Upload? && !h.failed && Fits(h, spans, files, others) && at <= h.size && at + |data| <= h.limit
    requires h.temp in nextFiles && nextFiles[h.temp] == Overlay(files[h.temp], at, data)
    ensures Fits(h.(size := if at + |data| > h.size then at + |data| else h.size), spans + [Span(at, data)], nextFiles, others)
  {
    OneMoreSpan(spans, Span(at, data));
    OverlaySize(files[h.temp], at, data);
  }

  lemma HiddenGrows(files: map<string, seq<Byte>>, temp: string)
    requires IsHidden(temp) && temp !in files
    ensures temp !in Hidden(files) && Hidden(files[temp := []]) == Hidden(files) + {temp}
  {
  }

  lemma NoneLeft(handles: map<int, Handle>, files: map<string, seq<Byte>>)
    requires handles.Keys == {}
    ensures handles == map[] && Temps(handles) == {} && files - Temps(handles) == files
  {
  }

  // A handle gone, and its upload's file with it.
  lemma CloseKeeps(handles: map<int, Handle>, writes: map<int, seq<Span>>, files: map<string, seq<Byte>>, others: set<string>,
                   id: int, nextFiles: map<string, seq<Byte>>)
    requires Sound(handles, writes, files, others, {}) && id in handles
    requires forall n :: IsHidden(n) ==>
               (n in nextFiles <==> n in files && (handles[id].Upload? ==> n != handles[id].temp))
    requires forall n :: IsHidden(n) && n in nextFiles ==> nextFiles[n] == files[n]
    ensures Sound(handles - {id}, writes, nextFiles, others, {})
  {
    var next := handles - {id};
    TempsShrink(handles, id);
    forall i | i in next
      ensures Fits(next[i], writes[i], nextFiles, others)
    {
      assert Fits(handles[i], writes[i], files, others);
    }
    if handles[id].Upload? {
      assert Fits(handles[id], writes[id], files, others);
    }
    assert Hidden(nextFiles) == Hidden(files) - if handles[id].Upload? then {handles[id].temp} else {};
  }

  // The visible files change, or one hidden file of no handle.
  lemma FilesKeep(handles: map<int, Handle>, writes: map<int, seq<Span>>, files: map<string, seq<Byte>>, others: set<string>,
                  extra: set<string>, nextFiles: map<string, seq<Byte>>, nextOthers: set<string>, nextExtra: set<string>)
    requires Sound(handles, writes, files, others, extra)
    requires forall n :: n in Temps(handles) ==> n in nextFiles && n in files && nextFiles[n] == files[n] && n !in nextOthers
    requires Hidden(nextFiles) == nextOthers + Temps(handles) + nextExtra
    ensures Sound(handles, writes, nextFiles, nextOthers, nextExtra)
  {
    forall id | id in handles
      ensures Fits(handles[id], writes[id], nextFiles, nextOthers)
    {
      assert Fits(handles[id], writes[id], files, others);
      if handles[id].Upload? {
        assert handles[id].temp in Temps(handles);
      }
    }
  }

  lemma TempsAreThere(handles: map<int, Handle>, writes: map<int, seq<Span>>, files: map<string, seq<Byte>>,
                      others: set<string>, extra: set<string>)
    requires Sound(handles, writes, files, others, extra)
    ensures Temps(handles) <= Hidden(files) && Temps(handles) !! others
  {
    forall n | n in Temps(handles)
      ensures n in files && IsHidden(n) && n !in others
    {
      var id :| id in handles && handles[id].Upload? && handles[id].temp == n;
      assert Fits(handles[id], writes[id], files, others);
    }
  }

  class SftpSession {
    const fs: FileSystem
    const viewOnly: bool
    var handles: map<int, Handle>
    var lastId: int
    ghost var writes: map<int, seq<Span>>
    ghost var published: seq<Published>
    // Hidden files of other sessions.
    ghost var others: set<string>

    constructor (fs: FileSystem, viewOnly: bool)
      ensures Valid() && this.fs == fs && this.viewOnly == viewOnly
      ensures handles == map[] && lastId == 0 && published == [] && others == Hidden(fs.files)
    {
      this.fs := fs;
      this.viewOnly := viewOnly;
      handles, lastId, writes, published, others := map[], 0, map[], [], Hidden(fs.files);
    }

    ghost predicate Valid()
      reads this, fs`files
    {
      && (forall id :: id in handles ==> id <= lastId)
      && Sound(handles, writes, fs.files, others, {})
      && (forall p :: p in published ==> IsWhole(p))
    }

    // This session's own uploads aside, anything may happen in /imports
    // between requests.
    method Elsewhere()
      requires Valid()
      modifies `others, fs`files
      ensures Valid()
    {
      var files: map<string, seq<Byte>> := *;
      var mine := Temps(handles);
      TempsAreThere(handles, writes, fs.files, others, {});
      var kept := map n | n in fs.files && n in mine :: fs.files[n];
      files := (files - mine) + kept;
      FilesKeep(handles, writes, fs.files, others, {}, files, Hidden(files) - mine, {});
      fs.files := files;
      others := Hidden(files) - mine;
    }

    // `suffix` is the clock and a random number.
    method OpenForWriting(name: string, exclusive: bool, append: bool, suffix: string) returns (reply: Reply)
      requires Valid()
      modifies `handles, `lastId, `writes, fs`files, fs`answers
      ensures Valid()
      ensures Opened(viewOnly, old(fs.files), name, exclusive, append, reply)
      ensures reply.HandleReply? ==>
                && reply.id == lastId == old(lastId) + 1 && reply.id in handles
                && handles == old(handles)[reply.id := handles[reply.id]]
                && IsFresh(handles[reply.id], name, Total(old(fs.files) - {name}))
                && handles[reply.id].temp == TempName(name, suffix) && writes == old(writes)[reply.id := []]
                && TempName(name, suffix) !in old(fs.files) && fs.files == old(fs.files)[TempName(name, suffix) := []]
      ensures !reply.HandleReply? ==>
                handles == old(handles) && writes == old(writes) && fs.files == old(fs.files) && lastId == old(lastId)
      ensures old(fs.answers) == [] ==> fs.answers == [] && (reply == CantCreate ==> TempName(name, suffix) in old(fs.files))
    {
      if viewOnly {
        return ReadOnly;
      }
      var allowed := IsAllowedImportName(name);
      if !allowed {
        return NotAllowed;
      }
      if name in fs.files && exclusive {
        return AlreadyExists;
      }
      if append {
        return CantResume;
      }
      var used := fs.BytesUsed(name);
      var limit := UploadLimit(used);
      if limit == 0 {
        return Full;
      }
      var temp := TempName(name, suffix);
      var created := fs.Create(temp);
      if !created {
        return CantCreate;
      }
      TempsAreThere(handles, writes, old(fs.files), others, {});
      HiddenGrows(old(fs.files), temp);
      FilesKeep(handles, writes, old(fs.files), others, {}, fs.files, others, {temp});
      reply := Take(Upload(temp, name, used, limit, 0, false));
      if !reply.HandleReply? {
        assert fs.files == old(fs.files);
      }
    }

    // A handle for an upload just begun; without one its file goes.
    method Take(h: Handle) returns (reply: Reply)
      requires forall id :: id in handles ==> id <= lastId
      requires h.Upload? ==>
                 && h.temp in fs.files && h.temp !in others && h.temp !in Temps(handles)
                 && IsHidden(h.temp) && fs.files[h.temp] == [] && h.final != [] && !IsHidden(h.final)
                 && !h.failed && h.size == 0 && h.limit <= MAX_UPLOAD && h.used + h.limit <= MAX_IMPORTS
      requires Sound(handles, writes, fs.files, others, if h.Upload? then {h.temp} else {})
      modifies `handles, `lastId, `writes, fs`files, fs`answers
      ensures Sound(handles, writes, fs.files, others, {}) && forall id :: id in handles ==> id <= lastId
      ensures reply.HandleReply? || reply == CantCreate
      ensures reply.HandleReply? ==>
                && reply.id == lastId == old(lastId) + 1 && handles == old(handles)[reply.id := h]
                && writes == old(writes)[reply.id := []] && fs.files == old(fs.files)
      ensures old(fs.answers) == [] ==> reply.HandleReply? && fs.answers == []
      ensures reply == CantCreate ==>
                && handles == old(handles) && writes == old(writes) && lastId == old(lastId)
                && fs.files == if h.Upload? then old(fs.files) - {h.temp} else old(fs.files)
    {
      var room := fs.Works();
      if !room {
        if h.Upload? {
          fs.Remove(h.temp);
          TempsAreThere(handles, writes, old(fs.files), others, {h.temp});
          assert Hidden(fs.files) == Hidden(old(fs.files)) - {h.temp};
          FilesKeep(handles, writes, old(fs.files), others, {h.temp}, fs.files, others, {});
        }
        return CantCreate;
      }
      TakeKeeps(handles, writes, fs.files, others, lastId + 1, h);
      lastId := lastId + 1;
      handles := handles[lastId := h];
      writes := writes[lastId := []];
      return HandleReply(lastId);
    }

    method Write(id: int, at: nat, data: seq<Byte>) returns (reply: Reply)
      requires Valid()
      modifies `handles, `writes, fs`files, fs`answers
      ensures Valid()
      ensures handles.Keys == old(handles.Keys)
      ensures id !in handles ==> reply == InvalidHandle && handles == old(handles)
      ensures id !in handles || !handles[id].Upload? ==> fs.files == old(fs.files)
      ensures id in handles ==>
                handles == old(handles)[id := handles[id]] && Written(old(handles)[id], handles[id], at, data, reply)
      ensures reply == Ok ==> id in old(writes) && writes == old(writes)[id := old(writes)[id] + [Span(at, data)]]
      ensures reply != Ok ==> writes == old(writes)
      ensures id in handles && handles[id].Upload? ==> SameBut(old(fs.files), fs.files, handles[id].temp)
      ensures old(fs.answers) == [] ==> reply != CantWrite && fs.answers == []
    {
      if id !in handles {
        return InvalidHandle;
      }
      if !handles[id].Upload? {
        return NotForWriting;
      }
      if handles[id].failed {
        return AlreadyFailed;
      }
      reply := Extend(id, at, data);
    }

    method Extend(id: int, at: nat, data: seq<Byte>) returns (reply: Reply)
      requires Sound(handles, writes, fs.files, others, {}) && id in handles && handles[id].Upload? && !handles[id].failed
      modifies `handles, `writes, fs`files, fs`answers
      ensures Sound(handles, writes, fs.files, others, {}) && id in handles && handles == old(handles)[id := handles[id]]
      ensures Written(old(handles)[id], handles[id], at, data, reply)
      ensures reply == Ok ==> id in old(writes) && writes == old(writes)[id := old(writes)[id] + [Span(at, data)]]
      ensures reply != Ok ==> writes == old(writes)
      ensures handles[id].Upload? && SameBut(old(fs.files), fs.files, handles[id].temp)
      ensures old(fs.answers) == [] ==> reply != CantWrite && fs.answers == []
    {
      var h := handles[id];
      assert Fits(h, writes[id], fs.files, others);
      if at > h.limit || |data| > h.limit - at {
        reply := OverLimit;
      } else if at > h.size {
        reply := CantResume;
      } else {
        var done := WriteAll(h.temp, at, data);
        reply := if done then Ok else CantWrite;
      }
      Settle(id, at, data, reply, old(fs.files));
    }

    // What a write came to.
    method Settle(id: int, at: nat, data: seq<Byte>, reply: Reply, ghost before: map<string, seq<Byte>>)
      requires Sound(handles, writes, before, others, {}) && id in handles && handles[id].Upload? && !handles[id].failed
      requires SameBut(before, fs.files, handles[id].temp)
      requires reply == Ok ==>
                 && at + |data| <= handles[id].limit && at <= handles[id].size <= |before[handles[id].temp]|
                 && fs.files[handles[id].temp] == Overlay(before[handles[id].temp], at, data)
      modifies `handles, `writes
      ensures Sound(handles, writes, fs.files, others, {}) && id in handles && handles == old(handles)[id := handles[id]]
      ensures reply == Ok ==>
                && id in old(writes) && writes == old(writes)[id := old(writes)[id] + [Span(at, data)]]
                && handles[id] == old(handles)[id].(size := if at + |data| > old(handles)[id].size then at + |data| else old(handles)[id].size)
      ensures reply != Ok ==> writes == old(writes) && handles[id] == old(handles)[id].(failed := true)
    {
      var h := handles[id];
      assert Fits(h, writes[id], before, others);
      if reply == Ok {
        WholeSpanFits(h, writes[id], before, fs.files, others, at, data);
        h := h.(size := if at + |data| > h.size then at + |data| else h.size);
        WriteKeeps(handles, writes, before, others, id, h, writes[id] + [Span(at, data)], fs.files);
        writes := writes[id := writes[id] + [Span(at, data)]];
      } else {
        h := h.(failed := true);
        WriteKeeps(handles, writes, before, others, id, h, writes[id], fs.files);
        assert writes == writes[id := writes[id]];
      }
      handles := handles[id := h];
    }

    // All of it written, however many pieces it takes; a failure may leave
    // some of it.
    method WriteAll(temp: string, at: nat, data: seq<Byte>) returns (done: bool)
      requires temp in fs.files && at <= |fs.files[temp]|
      modifies fs`files, fs`answers
      ensures SameBut(old(fs.files), fs.files, temp)
      ensures done ==> fs.files[temp] == Overlay(old(fs.files)[temp], at, data)
      ensures old(fs.answers) == [] ==> done && fs.answers == []
    {
      var written := 0;
      ghost var was := fs.files[temp];
      OverlayNothing(was, at);
      assert data[..0] == [];
      while written < |data|
        invariant written <= |data|
        invariant SameBut(old(fs.files), fs.files, temp)
        invariant fs.files[temp] == Overlay(was, at, data[..written])
        invariant old(fs.answers) == [] ==> fs.answers == []
        decreases |data| - written, |fs.answers|
      {
        var count, again := WriteSome(temp, at, data, written, was);
        if again {
          continue;
        }
        if count <= 0 {
          return false;
        }
        written := written + count;
      }
      assert data[..written] == data;
      done := true;
    }

    method WriteSome(temp: string, at: nat, data: seq<Byte>, written: nat, ghost was: seq<Byte>) returns (count: int, again: bool)
      requires temp in fs.files && at <= |was| && written < |data|
      requires fs.files[temp] == Overlay(was, at, data[..written])
      modifies fs`files, fs`answers
      ensures SameBut(old(fs.files), fs.files, temp) && written + count <= |data|
      ensures again ==> count == -1 && |fs.answers| < |old(fs.answers)|
      ensures |fs.answers| <= |old(fs.answers)|
      ensures old(fs.answers) == [] ==> count > 0
      ensures count > 0 ==> fs.files[temp] == Overlay(was, at, data[..written + count])
      ensures again ==> fs.files[temp] == Overlay(was, at, data[..written])
    {
      OverlaySize(was, at, data[..written]);
      count, again := fs.WriteAt(temp, at + written, data[written..]);
      if count > 0 {
        OverlayOnward(was, at, data, written, count);
      }
    }

    // An upload takes its name, whole; or nothing is left of it.
    method Close(id: int) returns (reply: Reply)
      requires Valid()
      modifies `handles, `published, fs`files, fs`answers
      ensures Valid()
      ensures old(fs.answers) == [] ==> reply != CantSave && fs.answers == []
      ensures id !in old(handles) ==> reply == InvalidHandle && fs.files == old(fs.files) && published == old(published)
      ensures handles == old(handles) - {id}
      ensures id in old(handles) && !old(handles)[id].Upload? ==>
                reply == Ok && fs.files == old(fs.files) && published == old(published)
      ensures id in old(handles) && old(handles)[id].Upload? ==>
                var h := old(handles)[id];
                && (h.failed ==> reply == NothingSaved) && (!h.failed ==> reply in {Ok, CantSave})
                && if reply == Ok
                   then && id in writes && Solid(writes[id])
                        && fs.files == (old(fs.files) - {h.temp})[h.final := Assembled(writes[id])]
                        && published == old(published) + [Published(h.final, Assembled(writes[id]), writes[id], h.used, h.limit)]
                   else fs.files == old(fs.files) - {h.temp} && published == old(published)
    {
      if id !in handles {
        return InvalidHandle;
      }
      var h := handles[id];
      assert Fits(h, writes[id], fs.files, others);
      reply := Ok;
      if h.Upload? {
        if h.failed {
          fs.Remove(h.temp);
          reply := NothingSaved;
        } else {
          var replaced := fs.Replace(h.final, h.temp);
          if replaced {
            published := published + [Published(h.final, Assembled(writes[id]), writes[id], h.used, h.limit)];
          } else {
            reply := CantSave;
          }
        }
      }
      handles := handles - {id};
      CloseKeeps(old(handles), writes, old(fs.files), others, id, fs.files);
    }

    method Remove(name: string) returns (reply: Reply)
      requires Valid()
      modifies fs`files, fs`answers
      ensures Valid()
      ensures if viewOnly || !IsUploadName(name) then reply == NotAllowed
              else if name !in old(fs.files) then reply == NoSuchFile
              else reply == Ok || reply == CantRemove
      ensures old(fs.answers) == [] ==> reply != CantRemove && fs.answers == []
      ensures fs.files == if reply == Ok then old(fs.files) - {name} else old(fs.files)
    {
      var allowed := IsAllowedImportName(name);
      if viewOnly || !allowed {
        return NotAllowed;
      }
      if name !in fs.files {
        return NoSuchFile;
      }
      var can := fs.Works();
      if !can {
        return CantRemove;
      }
      fs.Remove(name);
      TempsAreThere(handles, writes, old(fs.files), others, {});
      assert Hidden(fs.files) == Hidden(old(fs.files));
      FilesKeep(handles, writes, old(fs.files), others, {}, fs.files, others, {});
      reply := Ok;
    }

    // The session is over: what was still open leaves nothing behind.
    method End()
      requires Valid()
      modifies `handles, fs`files
      ensures Valid() && handles == map[] && fs.files == old(fs.files - Temps(handles))
      ensures Hidden(fs.files) == others
    {
      var left := handles.Keys;
      ghost var rest := fs.files - Temps(handles);
      while left != {}
        invariant Sound(handles, writes, fs.files, others, {}) && left == handles.Keys
        invariant fs.files - Temps(handles) == rest
        decreases |left|
      {
        var id := AnyOf(left);
        left := left - {id};
        CloseFile(id);
      }
      NoneLeft(handles, fs.files);
    }

    method CloseFile(id: int)
      requires Sound(handles, writes, fs.files, others, {}) && id in handles
      modifies `handles, fs`files
      ensures Sound(handles, writes, fs.files, others, {}) && handles == old(handles) - {id}
      ensures fs.files - Temps(handles) == old(fs.files - Temps(handles))
    {
      var h := handles[id];
      TempsShrink(handles, id);
      if h.Upload? {
        assert h.temp in Temps(handles);
        fs.Remove(h.temp);
      }
      handles := handles - {id};
      CloseKeeps(old(handles), writes, old(fs.files), others, id, fs.files);
      assert fs.files - Temps(handles) == old(fs.files) - Temps(old(handles));
    }
  }
}
