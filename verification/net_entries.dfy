// The saved entries of a net once a file's are merged in: what was here stays,
// what was missing comes from the file, and a call sign with no member ID gets
// the file's.
module NetEntries {
  import opened CheckInKeys
  import opened NetDatabase
  import opened NetDetails

  predicate AllSaved(list: seq<SavedStation>, count: nat, saved: map<Entry, SavedRow>)
    requires count <= |list|
  {
    forall i :: 0 <= i < count ==> EntryOf(list[i]) in saved
  }

  // The file has no member ID for a call sign.
  predicate NoIdFor(list: seq<SavedStation>, count: nat, callsign: string)
    requires count <= |list|
  {
    forall i :: 0 <= i < count && Upper(list[i].station.callsign) == callsign ==> list[i].memberId == ""
  }

  // Then the entries here keep theirs.
  predicate IdsKept(list: seq<SavedStation>, count: nat, before: map<Entry, SavedRow>, after: map<Entry, SavedRow>)
    requires count <= |list|
  {
    forall e :: e in before && NoIdFor(list, count, e.callsign) ==> e in after && after[e].memberId == before[e].memberId
  }

  // An entry that was here, or is among the first `n` of the file.
  predicate KnownBy(list: seq<SavedStation>, n: nat, before: map<Entry, SavedRow>, e: Entry)
    requires n <= |list|
  {
    e in before || exists i :: 0 <= i < n && EntryOf(list[i]) == e
  }

  // The file's first record of an entry.
  predicate IsFirstOf(list: seq<SavedStation>, e: Entry, i: nat)
    requires i < |list|
  {
    EntryOf(list[i]) == e && forall j :: 0 <= j < i ==> EntryOf(list[j]) != e
  }

  // A record that gives its member ID to an entry: the first of a call sign
  // that has one, when none of the call sign's entries here does; its own entry
  // is known by then, and so is the one it is given to.
  predicate Gives(list: seq<SavedStation>, before: map<Entry, SavedRow>, i: nat, e: Entry)
    requires i < |list|
  {
    && Upper(list[i].station.callsign) == e.callsign && list[i].memberId != ""
    && NoneHasId(before, e.callsign) && NoIdFor(list, i, e.callsign)
    && KnownBy(list, i, before, EntryOf(list[i])) && KnownBy(list, i, before, e)
  }

  // An entry's own member ID stays; a blank one is the one it is given, if any.
  predicate IdIs(list: seq<SavedStation>, n: nat, before: map<Entry, SavedRow>, e: Entry, own: string, id: string)
    requires n <= |list|
  {
    if own != "" then id == own
    else if id == "" then forall i :: 0 <= i < n ==> !Gives(list, before, i, e)
    else exists i :: 0 <= i < n && Gives(list, before, i, e) && id == list[i].memberId
  }

  // An entry that was here keeps its remarks; one that was missing has the
  // file's, as the file's first record of it has them.
  predicate RowIs(list: seq<SavedStation>, n: nat, before: map<Entry, SavedRow>, e: Entry, row: SavedRow)
    requires n <= |list|
  {
    if e in before then row.remarks == before[e].remarks && IdIs(list, n, before, e, before[e].memberId, row.memberId)
    else exists i :: 0 <= i < n && IsFirstOf(list, e, i) && row.remarks == list[i].remarks
           && IdIs(list, n, before, e, list[i].memberId, row.memberId)
  }

  ghost predicate SavedAs(list: seq<SavedStation>, n: nat, before: map<Entry, SavedRow>, after: map<Entry, SavedRow>)
    requires n <= |list|
  {
    && EntriesAre(list, n, before, after) && BlanksAre(list, n, before, after)
    && forall e :: e in after ==> RowIs(list, n, before, e, after[e])
  }

  ghost predicate EntriesAre(list: seq<SavedStation>, n: nat, before: map<Entry, SavedRow>, after: map<Entry, SavedRow>)
    requires n <= |list|
  {
    forall e :: e in after <==> KnownBy(list, n, before, e)
  }

  // Which call signs have no member ID.
  ghost predicate BlanksAre(list: seq<SavedStation>, n: nat, before: map<Entry, SavedRow>, after: map<Entry, SavedRow>)
    requires n <= |list|
  {
    forall c :: NoneHasId(after, c) <==> NoneHasId(before, c) && NoIdFor(list, n, c)
  }

  lemma OneMoreEntry(list: seq<SavedStation>, n: nat, before: map<Entry, SavedRow>, mid: map<Entry, SavedRow>,
                     after: map<Entry, SavedRow>)
    requires n < |list| && EntriesAre(list, n, before, mid) && after.Keys == mid.Keys + {EntryOf(list[n])}
    ensures EntriesAre(list, n + 1, before, after)
  {
    forall e ensures e in after <==> KnownBy(list, n + 1, before, e) {
      KnownByMore(list, n, before, e);
    }
  }

  lemma OneMoreBlank(list: seq<SavedStation>, n: nat, before: map<Entry, SavedRow>, mid: map<Entry, SavedRow>,
                     after: map<Entry, SavedRow>)
    requires n < |list| && BlanksAre(list, n, before, mid)
    requires var told := Upper(list[n].station.callsign);
             forall c :: NoneHasId(after, c) <==> NoneHasId(mid, c) && (told == c ==> list[n].memberId == "")
    ensures BlanksAre(list, n + 1, before, after)
  {
    forall c ensures NoneHasId(after, c) <==> NoneHasId(before, c) && NoIdFor(list, n + 1, c) {
      NoIdForMore(list, n, c);
    }
  }

  lemma IdIsMore(list: seq<SavedStation>, n: nat, before: map<Entry, SavedRow>, e: Entry, own: string, id: string)
    requires n < |list| && IdIs(list, n, before, e, own, id) && !Gives(list, before, n, e)
    ensures IdIs(list, n + 1, before, e, own, id)
  {
  }

  lemma RowIsMore(list: seq<SavedStation>, n: nat, before: map<Entry, SavedRow>, e: Entry, row: SavedRow)
    requires n < |list| && RowIs(list, n, before, e, row) && !Gives(list, before, n, e)
    ensures RowIs(list, n + 1, before, e, row)
  {
    if e in before {
      IdIsMore(list, n, before, e, before[e].memberId, row.memberId);
    } else {
      var i :| 0 <= i < n && IsFirstOf(list, e, i) && row.remarks == list[i].remarks
        && IdIs(list, n, before, e, list[i].memberId, row.memberId);
      IdIsMore(list, n, before, e, list[i].memberId, row.memberId);
    }
  }

  lemma KnownByMore(list: seq<SavedStation>, n: nat, before: map<Entry, SavedRow>, e: Entry)
    requires n < |list|
    ensures KnownBy(list, n + 1, before, e) <==> KnownBy(list, n, before, e) || EntryOf(list[n]) == e
  {
  }

  lemma NoIdForMore(list: seq<SavedStation>, n: nat, c: string)
    requires n < |list|
    ensures NoIdFor(list, n + 1, c)
       <==> NoIdFor(list, n, c) && (Upper(list[n].station.callsign) == c ==> list[n].memberId == "")
  {
  }

  // A missing entry is added.
  lemma EntryAdded(list: seq<SavedStation>, n: nat, before: map<Entry, SavedRow>, mid: map<Entry, SavedRow>)
    requires n < |list| && SavedAs(list, n, before, mid) && EntryOf(list[n]) !in mid
    ensures SavedAs(list, n + 1, before, mid[EntryOf(list[n]) := SavedRow(list[n].remarks, list[n].memberId)])
  {
    var added, row := EntryOf(list[n]), SavedRow(list[n].remarks, list[n].memberId);
    var after := mid[added := row];
    OneMoreEntry(list, n, before, mid, after);
    forall c ensures NoneHasId(after, c) <==> NoneHasId(mid, c) && (added.callsign == c ==> row.memberId == "") {
      OneMoreId(mid, added, row, c);
    }
    OneMoreBlank(list, n, before, mid, after);
    assert !KnownBy(list, n, before, added);
    forall e | e in after ensures RowIs(list, n + 1, before, e, after[e]) {
      if e == added {
        RowAdded(list, n, before);
      } else {
        RowIsMore(list, n, before, e, mid[e]);
      }
    }
  }

  lemma OneMoreId(saved: map<Entry, SavedRow>, added: Entry, row: SavedRow, c: string)
    requires added !in saved
    ensures NoneHasId(saved[added := row], c) <==> NoneHasId(saved, c) && (added.callsign == c ==> row.memberId == "")
  {
    var after := saved[added := row];
    if NoneHasId(after, c) {
      forall e | e in saved && e.callsign == c ensures saved[e].memberId == "" {
        assert after[e] == saved[e];
      }
      assert added in after && after[added] == row;
    }
  }

  lemma RowAdded(list: seq<SavedStation>, n: nat, before: map<Entry, SavedRow>)
    requires n < |list| && !KnownBy(list, n, before, EntryOf(list[n]))
    ensures RowIs(list, n + 1, before, EntryOf(list[n]), SavedRow(list[n].remarks, list[n].memberId))
  {
    var added := EntryOf(list[n]);
    assert IsFirstOf(list, added, n);
    forall i | 0 <= i < n + 1 ensures !Gives(list, before, i, added) {
      assert !KnownBy(list, i, before, added);
    }
  }

  // The call sign's entries are given the file's member ID.
  lemma IdGiven(list: seq<SavedStation>, n: nat, before: map<Entry, SavedRow>, mid: map<Entry, SavedRow>,
                after: map<Entry, SavedRow>)
    requires n < |list| && SavedAs(list, n, before, mid) && EntryOf(list[n]) in mid
    requires list[n].memberId != "" && NoneHasId(mid, Upper(list[n].station.callsign)) && after.Keys == mid.Keys
    requires forall e :: e in mid ==>
               after[e] == if e.callsign == Upper(list[n].station.callsign) then mid[e].(memberId := list[n].memberId) else mid[e]
    ensures SavedAs(list, n + 1, before, after)
  {
    var callsign := Upper(list[n].station.callsign);
    OneMoreEntry(list, n, before, mid, after);
    forall c ensures NoneHasId(after, c) <==> NoneHasId(mid, c) && (callsign == c ==> list[n].memberId == "") {
      OneIdFewer(mid, after, EntryOf(list[n]), list[n].memberId, c);
    }
    OneMoreBlank(list, n, before, mid, after);
    assert NoneHasId(before, callsign) && NoIdFor(list, n, callsign);
    assert KnownBy(list, n, before, EntryOf(list[n]));
    forall e | e in after ensures RowIs(list, n + 1, before, e, after[e]) {
      assert KnownBy(list, n, before, e);
      RowGiven(list, n, before, e, mid[e]);
    }
  }

  lemma OneIdFewer(mid: map<Entry, SavedRow>, after: map<Entry, SavedRow>, given: Entry, id: string, c: string)
    requires id != "" && given in mid && after.Keys == mid.Keys
    requires forall e :: e in mid ==> after[e] == if e.callsign == given.callsign then mid[e].(memberId := id) else mid[e]
    ensures NoneHasId(after, c) <==> NoneHasId(mid, c) && given.callsign != c
  {
    assert after[given].memberId == id;
    if NoneHasId(after, c) {
      forall e | e in mid && e.callsign == c ensures mid[e].memberId == "" {
        assert after[e] == mid[e];
      }
    }
  }

  lemma RowGiven(list: seq<SavedStation>, n: nat, before: map<Entry, SavedRow>, e: Entry, row: SavedRow)
    requires n < |list| && RowIs(list, n, before, e, row) && KnownBy(list, n, before, e)
    requires var callsign := Upper(list[n].station.callsign);
             && list[n].memberId != "" && KnownBy(list, n, before, EntryOf(list[n]))
             && NoneHasId(before, callsign) && NoIdFor(list, n, callsign)
             && (e.callsign == callsign ==> row.memberId == "")
    ensures RowIs(list, n + 1, before, e,
                  if e.callsign == Upper(list[n].station.callsign) then row.(memberId := list[n].memberId) else row)
  {
    if e.callsign != Upper(list[n].station.callsign) {
      RowIsMore(list, n, before, e, row);
    } else if e !in before {
      assert Gives(list, before, n, e);
      var i :| 0 <= i < n && IsFirstOf(list, e, i) && row.remarks == list[i].remarks
        && IdIs(list, n, before, e, list[i].memberId, row.memberId);
      assert IdIs(list, n + 1, before, e, list[i].memberId, list[n].memberId);
    }
  }

  // A record of an entry there already, which gives nothing.
  lemma NothingGiven(list: seq<SavedStation>, n: nat, before: map<Entry, SavedRow>, mid: map<Entry, SavedRow>)
    requires n < |list| && SavedAs(list, n, before, mid) && EntryOf(list[n]) in mid
    requires list[n].memberId == "" || !NoneHasId(mid, Upper(list[n].station.callsign))
    ensures SavedAs(list, n + 1, before, mid)
  {
    var callsign := Upper(list[n].station.callsign);
    assert mid.Keys == mid.Keys + {EntryOf(list[n])};
    OneMoreEntry(list, n, before, mid, mid);
    OneMoreBlank(list, n, before, mid, mid);
    assert NoneHasId(before, callsign) && NoIdFor(list, n, callsign) ==> NoneHasId(mid, callsign);
    forall e | e in mid ensures RowIs(list, n + 1, before, e, mid[e]) {
      RowIsMore(list, n, before, e, mid[e]);
    }
  }

  lemma NothingSaved(list: seq<SavedStation>, saved: map<Entry, SavedRow>)
    ensures SavedAs(list, 0, saved, saved)
  {
  }

  // Nothing here is lost: remarks stay, and so do member IDs, of which only
  // blank ones change, and only where the file has one.
  lemma SavedAsKeeps(list: seq<SavedStation>, before: map<Entry, SavedRow>, after: map<Entry, SavedRow>)
    requires SavedAs(list, |list|, before, after)
    ensures AllSaved(list, |list|, after) && SavedKept(before, after) && IdsKept(list, |list|, before, after)
  {
    forall i | 0 <= i < |list| ensures EntryOf(list[i]) in after {
      assert KnownBy(list, |list|, before, EntryOf(list[i]));
    }
    forall e | e in before
      ensures e in after && after[e].remarks == before[e].remarks
      ensures before[e].memberId != "" || NoIdFor(list, |list|, e.callsign) ==> after[e].memberId == before[e].memberId
    {
      assert KnownBy(list, |list|, before, e) && RowIs(list, |list|, before, e, after[e]);
    }
  }

  // An entry that was missing comes as the file's first record of it, with its
  // remarks, and its member ID if it has one.
  lemma MissingComesAsTold(list: seq<SavedStation>, before: map<Entry, SavedRow>, after: map<Entry, SavedRow>, i: nat)
    requires SavedAs(list, |list|, before, after) && i < |list| && EntryOf(list[i]) !in before && IsFirstOf(list, EntryOf(list[i]), i)
    ensures EntryOf(list[i]) in after && after[EntryOf(list[i])].remarks == list[i].remarks
    ensures list[i].memberId != "" ==> after[EntryOf(list[i])].memberId == list[i].memberId
  {
    var e := EntryOf(list[i]);
    assert KnownBy(list, |list|, before, e) && RowIs(list, |list|, before, e, after[e]);
    var j :| 0 <= j < |list| && IsFirstOf(list, e, j) && after[e].remarks == list[j].remarks
      && IdIs(list, |list|, before, e, list[j].memberId, after[e].memberId);
    assert i == j;
  }
}
