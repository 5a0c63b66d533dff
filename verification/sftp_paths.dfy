// The paths clients name, and the names uploads may have.
module SftpPaths {
  datatype Area = Root | Exports | Imports

  datatype Path = Path(area: Area, name: string)

  datatype Resolved = Found(path: Path) | NoSuchPath

  // ---- Parts ----

  // The text between slashes.
  function Parts(text: string): (parts: seq<string>)
    ensures parts != []
  {
    if text == [] then [[]]
    else
      var rest := Parts(text[1..]);
      if text[0] == '/' then [[]] + rest else [[text[0]] + rest[0]] + rest[1..]
  }

  // Where one part leads: an empty part or "." nowhere, ".." up, but not
  // beyond the top.
  function Step(stack: seq<string>, part: string): seq<string> {
    if part == "" || part == "." then stack
    else if part == ".." then (if stack == [] then [] else stack[..|stack| - 1])
    else stack + [part]
  }

  function Walk(stack: seq<string>, parts: seq<string>): seq<string>
    decreases parts
  {
    if parts == [] then stack else Walk(Step(stack, parts[0]), parts[1..])
  }

  // What a stack of names stands for: a folder, or a file in it that isn't
  // hidden.
  function Meaning(stack: seq<string>): Resolved
    requires forall i :: 0 <= i < |stack| ==> stack[i] != ""
  {
    if stack == [] then Found(Path(Root, ""))
    else if stack[0] != "exports" && stack[0] != "imports" then NoSuchPath
    else
      var area := if stack[0] == "exports" then Exports else Imports;
      if |stack| > 2 then NoSuchPath
      else if |stack| == 1 then Found(Path(area, ""))
      else if stack[1][0] == '.' then NoSuchPath
      else Found(Path(area, stack[1]))
  }

  // A name a stack may hold.
  predicate IsName(part: string) {
    part != "" && part != "." && part != ".." && '/' !in part
  }

  predicate Names(stack: seq<string>) {
    forall i :: 0 <= i < |stack| ==> IsName(stack[i])
  }

  lemma {:induction false} PartsHaveNoSlash(text: string)
    ensures forall i :: 0 <= i < |Parts(text)| ==> '/' !in Parts(text)[i]
  {
    if text != [] {
      PartsHaveNoSlash(text[1..]);
    }
  }

  lemma {:induction false} WalkNames(stack: seq<string>, parts: seq<string>)
    requires Names(stack) && forall i :: 0 <= i < |parts| ==> '/' !in parts[i]
    ensures Names(Walk(stack, parts))
    decreases parts
  {
    if parts != [] {
      WalkNames(Step(stack, parts[0]), parts[1..]);
    }
  }

  function Resolve(text: string): Resolved {
    PartsHaveNoSlash(text);
    WalkNames([], Parts(text));
    Meaning(Walk([], Parts(text)))
  }

  // ---- As the server does it ----

  // Where the part at `start` ends: the next slash, or the end.
  method NextSlash(text: string, start: nat) returns (slash: nat)
    requires start <= |text|
    ensures start <= slash <= |text| && '/' !in text[start..slash] && (slash < |text| ==> text[slash] == '/')
  {
    slash := start;
    while slash < |text| && text[slash] != '/'
      invariant start <= slash <= |text| && '/' !in text[start..slash]
    {
      slash := slash + 1;
    }
  }

  method FollowParts(clientPath: string) returns (parts: seq<string>)
    ensures parts == Walk([], Parts(clientPath)) && Names(parts)
  {
    parts := [];
    var start := 0;
    ghost var left := Parts(clientPath);
    assert clientPath[0..] == clientPath;
    while start <= |clientPath|
      invariant start <= |clientPath| + 1 && Names(parts)
      invariant left == if start <= |clientPath| then Parts(clientPath[start..]) else []
      invariant Walk(parts, left) == Walk([], Parts(clientPath))
    {
      var slash := NextSlash(clientPath, start);
      var part := clientPath[start..slash];
      left := FirstOf(clientPath, start, slash);
      WalkFirst(parts, part, left);
      start := slash + 1;
      if part == "" || part == "." {
        continue;
      }
      if part == ".." {
        if parts != [] {
          parts := parts[..|parts| - 1];
        }
        continue;
      }
      parts := parts + [part];
    }
  }

  lemma WalkFirst(stack: seq<string>, part: string, rest: seq<string>)
    ensures Walk(stack, [part] + rest) == Walk(Step(stack, part), rest)
  {
    assert ([part] + rest)[1..] == rest;
  }

  // What is left once the part before a slash, or the last one, is taken.
  lemma FirstOf(text: string, start: nat, slash: nat) returns (rest: seq<string>)
    requires start <= slash <= |text| && '/' !in text[start..slash] && (slash < |text| ==> text[slash] == '/')
    ensures Parts(text[start..]) == [text[start..slash]] + rest
    ensures rest == if slash < |text| then Parts(text[slash + 1..]) else []
  {
    assert text[start..][..slash - start] == text[start..slash];
    FirstPart(text[start..], slash - start);
    if slash < |text| {
      assert text[start..][slash - start + 1..] == text[slash + 1..];
      rest := Parts(text[slash + 1..]);
    } else {
      rest := [];
    }
  }

  method ResolveSftpPath(clientPath: string) returns (resolved: Resolved)
    ensures resolved == Resolve(clientPath)
  {
    var parts := FollowParts(clientPath);
    if parts == [] {
      return Found(Path(Root, ""));
    }
    var area;
    if parts[0] == "exports" {
      area := Exports;
    } else if parts[0] == "imports" {
      area := Imports;
    } else {
      return NoSuchPath;
    }
    if |parts| > 2 {
      return NoSuchPath;
    }
    if |parts| == 2 {
      if parts[1][0] == '.' {
        return NoSuchPath;
      }
      return Found(Path(area, parts[1]));
    }
    return Found(Path(area, ""));
  }

  // The first part runs up to the first slash.
  lemma {:induction false} FirstPart(text: string, n: nat)
    requires n <= |text| && '/' !in text[..n] && (n < |text| ==> text[n] == '/')
    ensures Parts(text) == [text[..n]] + if n < |text| then Parts(text[n + 1..]) else []
  {
    if n == 0 {
      assert text[..0] == [];
    } else {
      var rest := text[1..];
      assert text[0] in text[..n];
      assert rest[..n - 1] == text[..n][1..];
      FirstPart(rest, n - 1);
      assert [text[0]] + rest[..n - 1] == text[..n];
      if n < |text| {
        assert rest[n..] == text[n + 1..];
      }
    }
  }

  method SftpPathString(path: Path) returns (text: string)
    ensures text == PathText(path)
  {
    if path.area == Root {
      return "/";
    }
    text := if path.area == Exports then "/exports" else "/imports";
    if path.name != "" {
      text := text + "/";
      text := text + path.name;
    }
  }

  // ---- What holds of them ----

  function PathText(path: Path): string {
    if path.area == Root then "/"
    else
      var folder := if path.area == Exports then "/exports" else "/imports";
      if path.name == "" then folder else folder + ("/" + path.name)
  }

  // A path the server may be asked for: one of the folders, or a file right
  // in one whose name is not hidden.
  predicate IsServed(path: Path) {
    if path.area == Root then path.name == ""
    else path.name == "" || (path.name[0] != '.' && '/' !in path.name)
  }

  // No text leads anywhere else, whatever it goes through.
  lemma NothingElseIsServed(text: string)
    ensures Resolve(text).Found? ==> IsServed(Resolve(text).path)
  {
    PartsHaveNoSlash(text);
    WalkNames([], Parts(text));
    var stack := Walk([], Parts(text));
    if |stack| == 2 {
      assert IsName(stack[1]);
    }
  }

  // And what is served is found again under the name it goes by, and under no
  // other.
  lemma PathTextLeadsBack(path: Path)
    requires IsServed(path)
    ensures Resolve(PathText(path)) == Found(path)
  {
    OnePart("");
    if path.area == Root {
      assert "/" == "" + ("/" + "");
      PartsOf("", "");
      WalkOn([], [""], [""]);
      assert Walk([], [""]) == Walk([], []);
    } else {
      var word := if path.area == Exports then "exports" else "imports";
      NoSlashIn(word);
      if path.name == "" {
        assert PathText(path) == "" + ("/" + word);
        PartsOf("", word);
        OnePart(word);
        WalkFirst([], "", [word]);
        WalkOne([], word);
      } else {
        assert PathText(path) == "" + ("/" + (word + ("/" + path.name)));
        TwoNames(word, path.name);
      }
    }
  }

  lemma TwoNames(folder: string, name: string)
    requires IsName(folder) && IsName(name)
    ensures Walk([], Parts("" + ("/" + (folder + ("/" + name))))) == [folder, name]
  {
    var tail := folder + ("/" + name);
    PartsOf("", tail);
    PartsOf(folder, name);
    OnePart("");
    OnePart(folder);
    OnePart(name);
    WalkFirst([], "", Parts(tail));
    WalkFirst([], folder, [name]);
    WalkOne([folder], name);
  }

  lemma OnePart(name: string)
    requires '/' !in name
    ensures Parts(name) == [name]
  {
    assert name[..|name|] == name;
    FirstPart(name, |name|);
  }

  lemma WalkOne(stack: seq<string>, name: string)
    requires IsName(name)
    ensures Walk(stack, [name]) == stack + [name]
  {
    assert Walk(stack, [name]) == Walk(stack + [name], [name][1..]);
  }

  lemma NoSlashIn(word: string)
    requires word == "exports" || word == "imports"
    ensures IsName(word)
  {
  }

  lemma {:induction false} WalkOn(stack: seq<string>, a: seq<string>, b: seq<string>)
    ensures Walk(stack, a + b) == Walk(Walk(stack, a), b)
    decreases a
  {
    if a == [] {
      assert a + b == b;
    } else {
      assert (a + b)[1..] == a[1..] + b;
      WalkOn(Step(stack, a[0]), a[1..], b);
    }
  }

  lemma {:induction false} PartsOf(a: string, b: string)
    ensures Parts(a + ("/" + b)) == Parts(a) + Parts(b)
  {
    var text := a + ("/" + b);
    if a == [] {
      assert text == "/" + b && text[1..] == b;
      assert Parts(a) == [[]];
    } else {
      assert text[1..] == a[1..] + ("/" + b);
      PartsOf(a[1..], b);
    }
  }

  // Going into a folder and up again is as good as staying.
  lemma UpUndoesDown(a: string, name: string, b: string)
    requires IsName(name)
    ensures Resolve(a + ("/" + (name + ("/" + (".." + ("/" + b)))))) == Resolve(a + ("/" + b))
  {
    var stack, down := Walk([], Parts(a)), [name] + ([".."] + Parts(b));
    PartsOf(a, name + ("/" + (".." + ("/" + b))));
    PartsOf(name, ".." + ("/" + b));
    PartsOf("..", b);
    PartsOf(a, b);
    OnePart(name);
    OnePart("..");
    WalkOn([], Parts(a), down);
    WalkOn([], Parts(a), Parts(b));
    WalkOn(stack, [name], [".."] + Parts(b));
    WalkOne(stack, name);
    WalkOn(stack + [name], [".."], Parts(b));
    assert (stack + [name])[..|stack|] == stack;
    assert Walk(stack + [name], [".."]) == Walk(stack, [".."][1..]);
  }

  // ---- The names of uploads ----

  predicate IsSafe(c: char) {
    ('0' <= c <= '9') || ('A' <= c <= 'Z') || ('a' <= c <= 'z') || c == '.' || c == '_' || c == '-'
  }

  predicate AllSafe(text: string) {
    forall i :: 0 <= i < |text| ==> IsSafe(text[i])
  }

  // Text made fit for a file name: what is not safe becomes underscores, one
  // for a run, and none stay at either end.
  method SanitizeFilenameComponent(text: string) returns (result: string)
    ensures result != [] && AllSafe(result) && result[0] != '_' && result[|result| - 1] != '_'
    ensures result == text <==> text != [] && AllSafe(text) && text[0] != '_' && text[|text| - 1] != '_'
  {
    var made: string := [];
    var lastWasUnderscore := false;
    for i := 0 to |text|
      invariant AllSafe(made)
      invariant AllSafe(text[..i]) ==> made == text[..i]
    {
      assert text[..i + 1] == text[..i] + [text[i]];
      if IsSafe(text[i]) {
        made := made + [text[i]];
        lastWasUnderscore := false;
      } else {
        assert !IsSafe(text[..i + 1][i]);
        if !lastWasUnderscore {
          made := made + ['_'];
          lastWasUnderscore := true;
        }
      }
    }
    assert text[..|text|] == text;
    var start := 0;
    while start < |made| && made[start] == '_'
      invariant start <= |made| && forall i :: 0 <= i < start ==> made[i] == '_'
    {
      start := start + 1;
    }
    if start == |made| {
      assert AllSafe(text) ==> text == [] || text[0] == '_';
      assert "export"[0] == 'e' && "export"[5] == 't';
      return "export";
    }
    var end := |made| - 1;
    while made[end] == '_'
      invariant start <= end < |made|
      invariant made[|made| - 1] != '_' ==> end == |made| - 1
      decreases end
    {
      end := end - 1;
    }
    result := made[start..end + 1];
    if text != [] && AllSafe(text) && text[0] != '_' && text[|text| - 1] != '_' {
      assert made == text;
      assert start == 0;
    }
  }

  predicate EndsWith(text: string, suffix: string) {
    |text| > |suffix| && text[|text| - |suffix|..] == suffix
  }

  // The names uploads may have.
  predicate IsUploadName(name: string) {
    && (EndsWith(name, ".qlnet") || EndsWith(name, ".qlsession"))
    && name[0] != '.' && name[0] != '_' && AllSafe(name)
  }

  method IsAllowedImportName(name: string) returns (allowed: bool)
    ensures allowed <==> IsUploadName(name)
  {
    if !EndsWith(name, ".qlnet") && !EndsWith(name, ".qlsession") {
      return false;
    }
    var clean := SanitizeFilenameComponent(name);
    LastOfSuffix(name);
    allowed := name[0] != '.' && clean == name;
  }

  lemma LastOfSuffix(name: string)
    requires EndsWith(name, ".qlnet") || EndsWith(name, ".qlsession")
    ensures name[|name| - 1] != '_'
  {
    var suffix := if EndsWith(name, ".qlnet") then ".qlnet" else ".qlsession";
    assert name[|name| - 1] == name[|name| - |suffix|..][|suffix| - 1];
  }

  // An upload can always be named again once it is there.
  lemma UploadsAreServed(name: string)
    requires IsUploadName(name)
    ensures Resolve(PathText(Path(Imports, name))) == Found(Path(Imports, name))
  {
    assert '/' !in name by {
      forall i | 0 <= i < |name|
        ensures name[i] != '/'
      {
        assert IsSafe(name[i]);
      }
    }
    PathTextLeadsBack(Path(Imports, name));
  }
}
