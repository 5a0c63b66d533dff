// An upload in order, from beginning to end: whether it is saved is told by its
// size and what /imports holds.
module SftpSaving {
  import opened Bytes
  import opened UploadStore
  import opened SftpPaths
  import opened SftpUploads

  function Joined(pieces: seq<seq<Byte>>): seq<Byte> {
    if pieces == [] then [] else Joined(pieces[..|pieces| - 1]) + pieces[|pieces| - 1]
  }

  // An upload with `content` sent so far: spoilt once that is over its limit.
  predicate Sent(h: Handle, temp: string, name: string, limit: nat, spans: seq<Span>, content: seq<Byte>) {
    && h.Upload? && h.temp == temp && h.final == name && h.limit == limit
    && (h.failed <==> |content| > limit)
    && (!h.failed ==> h.size == |content| && Solid(spans) && Assembled(spans) == content)
  }

  // The files as they were, but for one more.
  predicate Beside(files: map<string, seq<Byte>>, was: map<string, seq<Byte>>, temp: string) {
    temp in files && temp !in was && files - {temp} == was
  }

  lemma StaysBeside(files: map<string, seq<Byte>>, next: map<string, seq<Byte>>, was: map<string, seq<Byte>>, temp: string)
    requires Beside(files, was, temp) && SameBut(files, next, temp)
    ensures Beside(next, was, temp)
  {
    assert (next - {temp}).Keys == (files - {temp}).Keys;
  }

  // One more piece, right after the rest.
  lemma OneMoreSent(h: Handle, next: Handle, temp: string, name: string, limit: nat, spans: seq<Span>, more: seq<Span>,
                    content: seq<Byte>, data: seq<Byte>, reply: Reply)
    requires Sent(h, temp, name, limit, spans, content) && Written(h, next, |content|, data, reply) && reply != CantWrite
    requires more == if reply == Ok then spans + [Span(|content|, data)] else spans
    ensures Sent(next, temp, name, limit, more, content + data)
  {
    if reply == Ok {
      SpanAppends(spans, content, data);
    }
  }

  lemma SpanAppends(spans: seq<Span>, content: seq<Byte>, data: seq<Byte>)
    requires Solid(spans) && Assembled(spans) == content
    ensures var more := spans + [Span(|content|, data)]; Solid(more) && Assembled(more) == content + data
  {
    OneMoreSpan(spans, Span(|content|, data));
    OverlayAtEnd(content, data);
  }

  lemma OverlayAtEnd(content: seq<Byte>, data: seq<Byte>)
    ensures Overlay(content, |content|, data) == content + data
  {
  }

  // Sent in pieces, when nothing fails, an upload is saved exactly if there is
  // room for some and for all of it; and otherwise nothing is left of it.
  method Save(s: SftpSession, name: string, pieces: seq<seq<Byte>>, suffix: string) returns (saved: bool)
    requires s.Valid() && !s.viewOnly && IsUploadName(name) && s.fs.answers == [] && TempName(name, suffix) !in s.fs.files
    modifies s`handles, s`lastId, s`writes, s`published, s.fs`files, s.fs`answers
    ensures s.Valid() && s.handles == old(s.handles)
    ensures saved <==> var limit := old(UploadLimit(Total(s.fs.files - {name}))); limit > 0 && |Joined(pieces)| <= limit
    ensures s.fs.files == if saved then old(s.fs.files)[name := Joined(pieces)] else old(s.fs.files)
  {
    var open := s.OpenForWriting(name, false, false, suffix);
    if !open.HandleReply? {
      return false;
    }
    SendAll(s, open.id, pieces, TempName(name, suffix), name, old(s.fs.files));
    ghost var all := s.handles;
    saved := Finish(s, open.id, TempName(name, suffix), name, old(s.fs.files), Joined(pieces));
    assert all - {open.id} == old(s.handles);
  }

  method Finish(s: SftpSession, id: int, ghost temp: string, ghost name: string, ghost was: map<string, seq<Byte>>,
                ghost content: seq<Byte>) returns (saved: bool)
    requires s.Valid() && id in s.handles && id in s.writes && s.fs.answers == [] && Beside(s.fs.files, was, temp)
    requires s.handles[id].Upload? && Sent(s.handles[id], temp, name, s.handles[id].limit, s.writes[id], content)
    modifies s`handles, s`published, s.fs`files, s.fs`answers
    ensures s.Valid() && s.handles == old(s.handles) - {id} && (saved <==> |content| <= old(s.handles)[id].limit)
    ensures s.fs.files == if saved then was[name := content] else was
  {
    var reply := s.Close(id);
    saved := reply == Ok;
  }

  method SendAll(s: SftpSession, id: int, pieces: seq<seq<Byte>>, ghost temp: string, ghost name: string,
                 ghost was: map<string, seq<Byte>>)
    requires s.Valid() && id in s.handles && id in s.writes && s.fs.answers == [] && Beside(s.fs.files, was, temp)
    requires s.handles[id].Upload? && Sent(s.handles[id], temp, name, s.handles[id].limit, s.writes[id], [])
    modifies s`handles, s`writes, s.fs`files, s.fs`answers
    ensures s.Valid() && id in s.handles && id in s.writes && s.fs.answers == [] && Beside(s.fs.files, was, temp)
    ensures s.handles == old(s.handles)[id := s.handles[id]]
    ensures Sent(s.handles[id], temp, name, old(s.handles)[id].limit, s.writes[id], Joined(pieces))
  {
    var at: nat, i := 0, 0;
    ghost var limit := s.handles[id].limit;
    while i < |pieces|
      invariant i <= |pieces| && at == |Joined(pieces[..i])|
      invariant s.Valid() && id in s.handles && id in s.writes && s.fs.answers == [] && Beside(s.fs.files, was, temp)
      invariant s.handles == old(s.handles)[id := s.handles[id]]
      invariant Sent(s.handles[id], temp, name, limit, s.writes[id], Joined(pieces[..i]))
    {
      Send(s, id, at, pieces[i], temp, name, was, Joined(pieces[..i]));
      assert pieces[..i + 1][..i] == pieces[..i];
      at, i := at + |pieces[i]|, i + 1;
    }
    assert pieces[..i] == pieces;
  }

  method Send(s: SftpSession, id: int, at: nat, data: seq<Byte>, ghost temp: string, ghost name: string,
              ghost was: map<string, seq<Byte>>, ghost content: seq<Byte>)
    requires s.Valid() && id in s.handles && id in s.writes && s.fs.answers == [] && Beside(s.fs.files, was, temp)
    requires s.handles[id].Upload? && Sent(s.handles[id], temp, name, s.handles[id].limit, s.writes[id], content) && at == |content|
    modifies s`handles, s`writes, s.fs`files, s.fs`answers
    ensures s.Valid() && id in s.handles && id in s.writes && s.fs.answers == [] && Beside(s.fs.files, was, temp)
    ensures s.handles == old(s.handles)[id := s.handles[id]]
    ensures Sent(s.handles[id], temp, name, old(s.handles)[id].limit, s.writes[id], content + data)
  {
    ghost var h, spans, files := s.handles[id], s.writes[id], s.fs.files;
    var reply := s.Write(id, at, data);
    OneMoreSent(h, s.handles[id], temp, name, h.limit, spans, s.writes[id], content, data, reply);
    StaysBeside(files, s.fs.files, was, temp);
  }
}
