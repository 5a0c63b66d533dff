// Which net a session pushed from elsewhere goes into.
module UpstreamChoice {
  import opened CheckInKeys

  datatype Service = Amateur | Gmrs

  datatype Net = Net(id: int, name: string, service: Service, adHoc: bool)

  // The session of a file, and the net it was logged in.
  datatype SessionFile = SessionFile(net: string, service: Service, adHoc: bool, date: string, startedAt: int)

  // When names are the same, or look alike, and which nets this user may log.
  datatype Rules = Rules(same: (string, string) -> bool, alike: (string, string) -> bool, mayLog: Net -> bool)

  datatype Choice =
    | IntoNet(net: Net)
    | IntoAdHoc
    | Ask(net: Net)
    | NoMatch
    | Refused

  predicate Recurring(n: Net, service: Service) {
    !n.adHoc && n.service == service
  }

  predicate Elsewhere(n: Net, service: Service) {
    !n.adHoc && n.service != service
  }

  // What a user may have chosen: a net of the session's own service, named the
  // same or alike, that they may log; or nothing is imported.
  predicate Fair(c: Choice, nets: seq<Net>, f: SessionFile, confirm: string, r: Rules) {
    match c
    case IntoNet(n) =>
      && n in nets && Recurring(n, f.service) && r.mayLog(n) && !f.adHoc
      && (r.same(n.name, f.net) || (confirm != "" && r.same(n.name, confirm) && r.alike(f.net, n.name)))
    case Ask(n) =>
      && n in nets && Recurring(n, f.service) && r.mayLog(n) && !f.adHoc && confirm == ""
      && r.alike(f.net, n.name)
      && (forall m :: m in nets && Recurring(m, f.service) ==> !r.same(m.name, f.net))
      && (forall m :: m in nets && Recurring(m, f.service) && r.mayLog(m) && r.alike(f.net, m.name) ==> !Before(m, n))
    case IntoAdHoc => f.adHoc && confirm == ""
    case NoMatch =>
      && !f.adHoc
      && (confirm == "" ==>
            forall m :: m in nets && Recurring(m, f.service) ==>
              !r.same(m.name, f.net) && !(r.mayLog(m) && r.alike(f.net, m.name)))
      && (confirm != "" ==> forall m :: m in nets && !m.adHoc ==> !r.same(m.name, confirm))
    case Refused =>
      || (f.adHoc && confirm != "")
      || exists n :: n in nets && MayRefuse(n, f, confirm, r)
  }

  // A net named as asked for that is on the other service, not this user's to
  // log, or nothing like the session's.
  predicate MayRefuse(n: Net, f: SessionFile, confirm: string, r: Rules) {
    && !f.adHoc && !n.adHoc && r.same(n.name, if confirm == "" then f.net else confirm)
    && (n.service != f.service || !r.mayLog(n) || !(r.same(n.name, f.net) || r.alike(f.net, n.name)))
  }

  // By name whatever its case, then by name.
  predicate Before(a: Net, b: Net) {
    if Upper(a.name) != Upper(b.name) then !AtMost(Upper(b.name), Upper(a.name)) else !AtMost(b.name, a.name)
  }

  lemma NotBeforeItself(a: Net)
    ensures !Before(a, a)
  {
    AtMostTotal(a.name, a.name);
  }

  lemma BeforeChains(a: Net, b: Net, c: Net)
    requires Before(a, b) && Before(b, c)
    ensures Before(a, c)
  {
    var x, y, z := Upper(a.name), Upper(b.name), Upper(c.name);
    AtMostTotal(x, y);
    AtMostTotal(y, z);
    AtMostTotal(a.name, b.name);
    AtMostTotal(b.name, c.name);
    if x == y && y == z {
      if AtMost(c.name, a.name) {
        AtMostTransitive(c.name, a.name, b.name);
      }
    } else if AtMost(z, x) && x != y {
      AtMostTransitive(z, x, y);
    }
  }

  method FindNamed(nets: seq<Net>, name: string, r: Rules) returns (at: int)
    ensures -1 <= at < |nets|
    ensures at >= 0 ==> r.same(nets[at].name, name)
    ensures at == -1 ==> forall n :: n in nets ==> !r.same(n.name, name)
  {
    for i := 0 to |nets|
      invariant forall k :: 0 <= k < i ==> !r.same(nets[k].name, name)
    {
      if r.same(nets[i].name, name) {
        return i;
      }
    }
    at := -1;
  }

  method Split(nets: seq<Net>, service: Service) returns (recurring: seq<Net>, other: seq<Net>)
    ensures forall n :: n in recurring <==> n in nets && Recurring(n, service)
    ensures forall n :: n in other <==> n in nets && Elsewhere(n, service)
  {
    recurring, other := [], [];
    for i := 0 to |nets|
      invariant forall n :: n in recurring <==> n in nets[..i] && Recurring(n, service)
      invariant forall n :: n in other <==> n in nets[..i] && Elsewhere(n, service)
    {
      assert nets[..i + 1] == nets[..i] + [nets[i]];
      if nets[i].adHoc {
        continue;
      }
      if nets[i].service == service {
        recurring := recurring + [nets[i]];
      } else {
        other := other + [nets[i]];
      }
    }
    assert nets[..|nets|] == nets;
  }

  // The first of the nets by name that look alike and may be logged; -1 if
  // none.
  method FirstAlike(recurring: seq<Net>, name: string, r: Rules) returns (at: int)
    ensures -1 <= at < |recurring|
    ensures at == -1 ==> forall n :: n in recurring ==> !(r.mayLog(n) && r.alike(name, n.name))
    ensures at >= 0 ==> r.mayLog(recurring[at]) && r.alike(name, recurring[at].name)
    ensures at >= 0 ==> forall n :: n in recurring && r.mayLog(n) && r.alike(name, n.name) ==> !Before(n, recurring[at])
  {
    at := -1;
    for i := 0 to |recurring|
      invariant -1 <= at < i
      invariant at == -1 ==> forall k :: 0 <= k < i ==> !(r.mayLog(recurring[k]) && r.alike(name, recurring[k].name))
      invariant at >= 0 ==> r.mayLog(recurring[at]) && r.alike(name, recurring[at].name)
      invariant at >= 0 ==> forall k :: 0 <= k < i && r.mayLog(recurring[k]) && r.alike(name, recurring[k].name) ==>
                              !Before(recurring[k], recurring[at])
    {
      var n := recurring[i];
      if r.mayLog(n) && r.alike(name, n.name) && (at == -1 || Before(n, recurring[at])) {
        NotBeforeItself(n);
        forall k | 0 <= k < i && r.mayLog(recurring[k]) && r.alike(name, recurring[k].name)
          ensures !Before(recurring[k], n)
        {
          if Before(recurring[k], n) {
            BeforeChains(recurring[k], n, recurring[at]);
          }
        }
        at := i;
      }
    }
  }

  // Which net a session goes into, once its file has been read.
  method Choose(nets: seq<Net>, f: SessionFile, confirm: string, r: Rules) returns (c: Choice)
    ensures Fair(c, nets, f, confirm, r)
    ensures confirm == "" && !f.adHoc && (exists n :: n in nets && Recurring(n, f.service) && r.same(n.name, f.net)) ==>
              c.IntoNet? || c.Refused?
  {
    if f.adHoc {
      return if confirm != "" then Refused else IntoAdHoc;
    }
    var recurring, other := Split(nets, f.service);
    if confirm != "" {
      c := ChooseConfirmed(recurring, other, f, confirm, r);
      return;
    }
    var at := FindNamed(recurring, f.net, r);
    if at >= 0 {
      assert recurring[at] in recurring;
      assert !r.mayLog(recurring[at]) ==> MayRefuse(recurring[at], f, confirm, r);
      return if r.mayLog(recurring[at]) then IntoNet(recurring[at]) else Refused;
    }
    at := FirstAlike(recurring, f.net, r);
    return if at == -1 then NoMatch else Ask(recurring[at]);
  }

  method ChooseConfirmed(recurring: seq<Net>, other: seq<Net>, f: SessionFile, confirm: string, r: Rules) returns (c: Choice)
    ensures c.NoMatch? || c.Refused? || c.IntoNet?
    requires confirm != "" && !f.adHoc
    requires forall n :: n in recurring ==> Recurring(n, f.service)
    requires forall n :: n in other ==> Elsewhere(n, f.service)
    ensures c.NoMatch? ==> forall n :: n in recurring || n in other ==> !r.same(n.name, confirm)
    ensures c.Refused? ==> exists n :: (n in recurring || n in other) && MayRefuse(n, f, confirm, r)
    ensures c.IntoNet? ==>
              && c.net in recurring && r.mayLog(c.net) && r.same(c.net.name, confirm)
              && (r.same(c.net.name, f.net) || r.alike(f.net, c.net.name))
  {
    var at := FindNamed(recurring, confirm, r);
    if at == -1 {
      var elsewhere := FindNamed(other, confirm, r);
      assert elsewhere >= 0 ==> other[elsewhere] in other && MayRefuse(other[elsewhere], f, confirm, r);
      return if elsewhere >= 0 then Refused else NoMatch;
    }
    var n := recurring[at];
    assert n in recurring;
    assert !r.mayLog(n) || !(r.same(n.name, f.net) || r.alike(f.net, n.name)) ==> MayRefuse(n, f, confirm, r);
    if !r.same(n.name, f.net) && !r.alike(f.net, n.name) {
      return Refused;
    }
    return if r.mayLog(n) then IntoNet(n) else Refused;
  }
}
