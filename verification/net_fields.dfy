// The fields of a net that older versions left to be typed freely: its ZIP or
// postal code, frequency and mode. A net read from a file has them put right;
// once they are, they stay as they are.
module NetFields {
  import opened Frequencies
  import opened Modes
  import opened NetSlices
  import opened PostalCodes

  function Normal(net: Net): Net {
    var amended := if net.gmrs then (net.frequency, net.comments) else Amended(net.frequency, net.comments);
    net.(location := ZipCode(net.location), frequency := amended.0, comments := amended.1,
         mode := Spelling(ModeKey(net.mode)))
  }

  method NormalizeNet(net: Net) returns (normal: Net)
    ensures normal == Normal(net)
  {
    var location := ExtractZipCode(net.location);
    var frequency, comments := net.frequency, net.comments;
    if !net.gmrs {
      var _, newFrequency, newComments := MoveBadFrequencyToComments(frequency, comments);
      frequency, comments := newFrequency, newComments;
    }
    var mode := NormalizeMode(net.mode);
    normal := net.(location := location, frequency := frequency, comments := comments, mode := mode);
  }

  // A net put right stays as it is.
  lemma NormalAgain(net: Net)
    ensures Normal(Normal(net)) == Normal(net)
  {
    ExtractingAgain(net.location);
    ModeAgain(net.mode);
    FrequencyIs(net.frequency, 0, IsAmateur);
  }

  // So a net through a file, and through another, changes only the first time.
  lemma SecondFileChangesNothing(s: NetSlice, t: NetSlice, u: NetSlice, f: map<int, int>, g: map<int, int>)
    requires SameSlice(s, t, f, Normal) && SameSlice(t, u, g, Normal)
    ensures u.net == t.net
  {
    NormalAgain(s.net);
  }
}
