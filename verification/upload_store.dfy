// Where uploads go: a user's /imports, and what writing at an offset does.
module UploadStore {
  import opened Bytes

  const MAX_UPLOAD: nat := 25 * 1024 * 1024
  const MAX_IMPORTS: nat := 100 * 1024 * 1024

  // How large a new upload may grow when `used` bytes are there already.
  function UploadLimit(used: nat): (limit: nat)
    ensures limit <= MAX_UPLOAD && (limit > 0 ==> used + limit <= MAX_IMPORTS)
    ensures limit < MAX_UPLOAD ==> used + limit >= MAX_IMPORTS
  {
    if used >= MAX_IMPORTS then 0
    else if MAX_UPLOAD <= MAX_IMPORTS - used then MAX_UPLOAD
    else MAX_IMPORTS - used
  }

  // A name starting with a dot is an upload still being written.
  predicate IsHidden(name: string) {
    name != [] && name[0] == '.'
  }

  // The hidden names among files.
  function Hidden(files: map<string, seq<Byte>>): set<string> {
    set n | n in files && IsHidden(n)
  }

  // ---- Writing at an offset ----

  // `content` with `data` written over it from `at`.
  function Overlay(content: seq<Byte>, at: nat, data: seq<Byte>): (r: seq<Byte>)
    requires at <= |content|
  {
    content[..at] + data + if at + |data| < |content| then content[at + |data|..] else []
  }

  lemma OverlayNothing(content: seq<Byte>, at: nat)
    requires at <= |content|
    ensures Overlay(content, at, []) == content
  {
  }

  lemma OverlaySize(content: seq<Byte>, at: nat, data: seq<Byte>)
    requires at <= |content|
    ensures |Overlay(content, at, data)| == if at + |data| > |content| then at + |data| else |content|
  {
  }

  // A piece and then the next are the two at once.
  lemma OverlayMore(content: seq<Byte>, at: nat, a: seq<Byte>, b: seq<Byte>)
    requires at <= |content|
    ensures at + |a| <= |Overlay(content, at, a)|
    ensures Overlay(Overlay(content, at, a), at + |a|, b) == Overlay(content, at, a + b)
  {
    var first := Overlay(content, at, a);
    assert first[..at + |a|] == content[..at] + a;
    if at + |a| + |b| < |content| {
      assert first[at + |a| + |b|..] == content[at + |a| + |b|..];
    }
  }

  lemma OverlayOnward(content: seq<Byte>, at: nat, data: seq<Byte>, written: nat, count: nat)
    requires at <= |content| && written + count <= |data|
    ensures at + written <= |Overlay(content, at, data[..written])|
    ensures Overlay(Overlay(content, at, data[..written]), at + written, data[written..][..count])
            == Overlay(content, at, data[..written + count])
  {
    OverlayMore(content, at, data[..written], data[written..][..count]);
    assert data[..written] + data[written..][..count] == data[..written + count];
  }

  // ---- What a run of writes makes ----

  datatype Span = Span(at: nat, data: seq<Byte>)

  // Each write starts within or right after what is there.
  predicate Solid(writes: seq<Span>)
    decreases |writes|, 0
  {
    writes == []
    || (Solid(writes[..|writes| - 1]) && writes[|writes| - 1].at <= |Assembled(writes[..|writes| - 1])|)
  }

  // What the writes leave, one over the other.
  function Assembled(writes: seq<Span>): seq<Byte>
    requires Solid(writes)
    decreases |writes|, 1
  {
    if writes == [] then []
    else Overlay(Assembled(writes[..|writes| - 1]), writes[|writes| - 1].at, writes[|writes| - 1].data)
  }

  predicate Covers(w: Span, p: nat) {
    w.at <= p < w.at + |w.data|
  }

  // Every byte was written, and is what was written there last.
  lemma {:induction false} LastWriteWins(writes: seq<Span>, p: nat)
    requires Solid(writes) && p < |Assembled(writes)|
    ensures exists k :: 0 <= k < |writes| && IsLast(writes, k, p) && Assembled(writes)[p] == writes[k].data[p - writes[k].at]
  {
    var before, last := writes[..|writes| - 1], writes[|writes| - 1];
    if Covers(last, p) {
      assert IsLast(writes, |writes| - 1, p);
    } else {
      var most := Assembled(before);
      OverlaySize(most, last.at, last.data);
      LastWriteWins(before, p);
      var k :| 0 <= k < |before| && IsLast(before, k, p) && most[p] == before[k].data[p - before[k].at];
      assert IsLast(writes, k, p);
    }
  }

  predicate IsLast(writes: seq<Span>, k: nat, p: nat)
    requires k < |writes|
  {
    Covers(writes[k], p) && forall j :: k < j < |writes| ==> !Covers(writes[j], p)
  }

  // And no byte written is missing.
  lemma {:induction false} NothingMissing(writes: seq<Span>, k: nat, p: nat)
    requires Solid(writes) && k < |writes| && Covers(writes[k], p)
    ensures p < |Assembled(writes)|
  {
    var before, last := writes[..|writes| - 1], writes[|writes| - 1];
    OverlaySize(Assembled(before), last.at, last.data);
    if k < |before| {
      NothingMissing(before, k, p);
    }
  }

  lemma OneMoreSpan(writes: seq<Span>, w: Span)
    requires Solid(writes) && w.at <= |Assembled(writes)|
    ensures Solid(writes + [w]) && Assembled(writes + [w]) == Overlay(Assembled(writes), w.at, w.data)
  {
    assert (writes + [w])[..|writes|] == writes;
  }

  // ---- The files ----

  // The same files, with the same content but for one.
  predicate SameBut(before: map<string, seq<Byte>>, after: map<string, seq<Byte>>, name: string) {
    after.Keys == before.Keys && forall n :: n in before && n != name ==> after[n] == before[n]
  }

  // How an operation on a file goes. Without an answer it goes well.
  datatype Answer = Wrote(count: nat) | Interrupted | Refusal

  // One user's /imports. `answers` says how the operations to come will go.
  class FileSystem {
    var files: map<string, seq<Byte>>
    var answers: seq<Answer>

    constructor (files: map<string, seq<Byte>>, answers: seq<Answer>)
      ensures this.files == files && this.answers == answers
    {
      this.files, this.answers := files, answers;
    }

    // Whether the next operation that can only fail or not goes well.
    method Works() returns (ok: bool)
      modifies `answers
      ensures old(answers) == [] ==> ok && answers == []
    {
      ok := true;
      if answers != [] {
        ok := !answers[0].Refusal?;
        answers := answers[1..];
      }
    }

    // A new, empty file; false if it can't be made.
    method Create(name: string) returns (ok: bool)
      modifies `files, `answers
      ensures ok ==> name !in old(files) && files == old(files)[name := []]
      ensures !ok ==> files == old(files)
      ensures old(answers) == [] ==> ok == (name !in old(files)) && answers == []
    {
      ok := Works();
      ok := ok && name !in files;
      if ok {
        files := files[name := []];
      }
    }

    // Up to all of `data` at an offset: how much of it went, or -1 if none
    // did; `again` says that it was only interrupted.
    method WriteAt(name: string, at: nat, data: seq<Byte>) returns (count: int, again: bool)
      requires name in files && at <= |files[name]| && data != []
      modifies `files, `answers
      ensures -1 <= count <= |data|
      ensures SameBut(old(files), files, name)
      ensures files[name] == if count >= 0 then Overlay(old(files[name]), at, data[..count]) else old(files[name])
      ensures again ==> count == -1 && |answers| < |old(answers)|
      ensures |answers| <= |old(answers)|
      ensures old(answers) == [] ==> count == |data|
    {
      var answer := Wrote(|data|);
      if answers != [] {
        answer := answers[0];
        answers := answers[1..];
        if answer.Interrupted? {
          return -1, true;
        }
      }
      match answer {
        case Wrote(n) =>
          count, again := if n <= |data| then n else |data|, false;
          files := files[name := Overlay(files[name], at, data[..count])];
        case _ =>
          count, again := -1, false;
      }
    }

    // More at the end of a file; a failure may leave some of it.
    method Append(name: string, data: seq<Byte>) returns (ok: bool)
      requires name in files
      modifies `files, `answers
      ensures SameBut(old(files), files, name)
      ensures ok ==> files[name] == old(files[name]) + data
      ensures old(answers) == [] ==> ok && answers == []
    {
      ok := true;
      if data != [] {
        ghost var was := files[name];
        var count, again := WriteAt(name, |files[name]|, data);
        ok := count == |data|;
        assert ok ==> data[..count] == data && Overlay(was, |was|, data) == was + data;
      }
    }

    method Remove(name: string)
      modifies `files
      ensures files == old(files) - {name}
    {
      files := files - {name};
    }

    // The file takes another's name and place; or it is gone, if it can't.
    method Replace(name: string, from: string) returns (ok: bool)
      requires from in files && name != from
      modifies `files, `answers
      ensures old(answers) == [] ==> ok && answers == []
      ensures files == if ok then (old(files) - {from})[name := old(files)[from]] else old(files) - {from}
    {
      ok := Works();
      var content := files[from];
      files := files - {from};
      if ok {
        files := files[name := content];
      }
    }

    // The size of all the files but one.
    method BytesUsed(replaced: string) returns (used: nat)
      ensures used == Total(files - {replaced})
    {
      var left := files - {replaced};
      used := 0;
      while left != map[]
        invariant used + Total(left) == Total(files - {replaced})
        decreases |left|
      {
        var n :| n in left;
        TotalWithout(left, n);
        used := used + |left[n]|;
        left := left - {n};
      }
    }
  }

  // The size of files together: that of any one, and of the rest.
  ghost function Total(files: map<string, seq<Byte>>): nat
    decreases |files|
  {
    if files == map[] then 0
    else
      var n :| n in files;
      |files[n]| + Total(files - {n})
  }

  lemma {:induction false} TotalWithout(files: map<string, seq<Byte>>, n: string)
    requires n in files
    ensures Total(files) == |files[n]| + Total(files - {n})
    decreases |files|
  {
    var m :| m in files && Total(files) == |files[m]| + Total(files - {m});
    if m != n {
      TotalWithout(files - {m}, n);
      TotalWithout(files - {n}, m);
      assert files - {m} - {n} == files - {n} - {m};
    }
  }
}
