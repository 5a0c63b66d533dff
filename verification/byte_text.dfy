// Bytes as text, a character each.
module ByteText {
  import opened Bytes

  function Text(bytes: seq<Byte>): (text: string)
    ensures |text| == |bytes| && forall i :: 0 <= i < |bytes| ==> text[i] == bytes[i] as char
  {
    seq(|bytes|, i requires 0 <= i < |bytes| => bytes[i] as char)
  }

  predicate IsBytes(text: string) {
    forall i :: 0 <= i < |text| ==> text[i] as int < 256
  }

  function Raw(text: string): (bytes: seq<Byte>)
    requires IsBytes(text)
    ensures Text(bytes) == text
  {
    seq(|text|, i requires 0 <= i < |text| => text[i] as int)
  }
}
