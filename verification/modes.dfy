// The modes a net can be on, by their usual spellings.
module Modes {
  import opened CheckInKeys
  import opened Characters

  function Spelling(key: string): string {
    if key == "FM" || key == "NFM" then "FM"
    else if key == "SSB" || key == "USB" || key == "LSB" then "SSB"
    else if key == "AM" then "AM"
    else if key == "CW" then "CW"
    else if key == "DSTAR" then "D-STAR"
    else if key == "DMR" then "DMR"
    else if key == "FUSION" || key == "YSF" || key == "C4FM" || key == "SYSTEMFUSION" then "Fusion"
    else ""
  }

  predicate IsPassedOver(c: char) {
    c == ' ' || c == '-' || c == '/' || c == '_' || c == '.' || c == '\t'
  }

  // Upper case, without what may stand between the letters of one mode.
  function ModeKey(text: string): string {
    if exists i :: 0 <= i < |text| && !IsLetter(text[i]) && !IsDigit(text[i]) && !IsPassedOver(text[i]) then []
    else KeyLetters(text)
  }

  function KeyLetters(text: string): string {
    if text == [] then []
    else
      var before, c := KeyLetters(text[..|text| - 1]), text[|text| - 1];
      if IsLetter(c) || IsDigit(c) then before + [UpperChar(c)] else before
  }

  method MakeModeKey(text: string) returns (key: string)
    ensures key == ModeKey(text)
  {
    key := [];
    for i := 0 to |text|
      invariant key == KeyLetters(text[..i])
      invariant forall k :: 0 <= k < i ==> IsLetter(text[k]) || IsDigit(text[k]) || IsPassedOver(text[k])
    {
      assert text[..i + 1][..i] == text[..i];
      if IsLetter(text[i]) || IsDigit(text[i]) {
        key := key + [UpperChar(text[i])];
      } else if !IsPassedOver(text[i]) {
        return [];
      }
    }
    assert text[..|text|] == text;
  }

  method NormalizeMode(text: string) returns (mode: string)
    ensures mode == Spelling(ModeKey(text))
  {
    var key := MakeModeKey(text);
    mode := Spelling(key);
  }

  // The key of letters alone is the letters.
  lemma {:induction false} LettersKey(text: string)
    requires forall i :: 0 <= i < |text| ==> IsLetter(text[i])
    ensures KeyLetters(text) == Upper(text)
  {
    if text != [] {
      var before := text[..|text| - 1];
      LettersKey(before);
      assert Upper(text) == Upper(before) + [UpperChar(text[|text| - 1])];
    }
  }

  lemma {:induction false} KeysJoin(a: string, b: string)
    ensures KeyLetters(a + b) == KeyLetters(a) + KeyLetters(b)
  {
    if b == [] {
      assert a + b == a;
    } else {
      KeysJoin(a, b[..|b| - 1]);
      assert (a + b)[..|a + b| - 1] == a + b[..|b| - 1];
    }
  }

  lemma UpperIs(text: string)
    requires forall i :: 0 <= i < |text| ==> 'A' <= text[i] <= 'Z'
    ensures ModeKey(text) == text
  {
    LettersKey(text);
  }

  lemma DStarKey()
    ensures ModeKey("D-STAR") == "DSTAR"
  {
    var a, b, c := "D", "-", "STAR";
    LettersKey(a);
    LettersKey(c);
    KeysJoin(a, b + c);
    KeysJoin(b, c);
    assert KeyLetters(b) == [] by {
      assert b[..0] == [];
    }
    assert a + (b + c) == "D-STAR" && Upper(a) + ([] + Upper(c)) == "DSTAR";
  }

  lemma FusionKey()
    ensures ModeKey("Fusion") == "FUSION"
  {
    LettersKey("Fusion");
    assert Upper("Fusion") == "FUSION";
  }

  // A mode understood is understood as itself.
  lemma ModeAgain(text: string)
    ensures Spelling(ModeKey(Spelling(ModeKey(text)))) == Spelling(ModeKey(text))
  {
    var mode := Spelling(ModeKey(text));
    if mode == "D-STAR" {
      DStarKey();
    } else if mode == "Fusion" {
      FusionKey();
    } else {
      UpperIs(mode);
    }
  }

}
