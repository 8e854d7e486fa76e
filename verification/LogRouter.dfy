/** The router on the host: it splits the serial log into lines and extracts NMEA sentences. */
module LogRouter {
  import opened NmeaFramer

  const PREFIX := "@NMEA "

  /** The first position at which pattern occurs in s, or -1. */
  function Find(s: string, pattern: string): (i: int)
    ensures -1 <= i && (i >= 0 ==> i + |pattern| <= |s| && s[i..i + |pattern|] == pattern)
  {
    if pattern <= s then 0
    else if s == "" then -1
    else
      var r := Find(s[1..], pattern);
      if r < 0 then -1
      else
        assert s[1..][r..r + |pattern|] == s[1 + r..1 + r + |pattern|];
        1 + r
  }

  predicate IsPadding(c: char) {
    c == '\n' || c == '\r' || c == ' '
  }

  function Trimmed(s: string): (t: string)
    ensures t <= s && (t != "" ==> t[|t| - 1] != '\n' && t[|t| - 1] != '\r' && t[|t| - 1] != ' ')
    ensures forall i :: |t| <= i < |s| ==> s[i] == '\n' || s[i] == '\r' || s[i] == ' '
  {
    if s != "" && IsPadding(s[|s| - 1]) then Trimmed(s[..|s| - 1]) else s
  }

  /** Up to two characters past the first star, if they are there. */
  function CutAfterChecksum(s: string): string {
    var star := IndexOf(s, '*');
    if star < |s| && |s| >= star + 3 then s[..star + 3] else s
  }

  function Extract(line: string): string {
    var pos := Find(line, PREFIX);
    if pos < 0 then ""
    else
      var sentence := Trimmed(line[pos + |PREFIX|..]);
      if sentence == "" || (sentence[0] != '$' && sentence[0] != '!') then ""
      else CutAfterChecksum(sentence)
  }

  method ExtractNmea(line: string) returns (sentence: string)
    ensures sentence == Extract(line)
  {
    hide Find, Trimmed, IndexOf;
    var pos := Find(line, PREFIX);
    if pos < 0 {
      return "";
    }
    sentence := line[pos + |PREFIX|..];
    ghost var whole := sentence;
    while sentence != "" && IsPadding(sentence[|sentence| - 1])
      invariant Trimmed(sentence) == Trimmed(whole)
      decreases |sentence|
    {
      TrimOne(sentence);
      sentence := sentence[..|sentence| - 1];
    }
    TrimDone(sentence);
    if sentence == "" || (sentence[0] != '$' && sentence[0] != '!') {
      return "";
    }
    var star := IndexOf(sentence, '*');
    if star < |sentence| && |sentence| >= star + 3 {
      sentence := sentence[..star + 3];
    }
  }

  lemma {:induction false} TrimOne(s: string)
    requires s != "" && IsPadding(s[|s| - 1])
    ensures Trimmed(s) == Trimmed(s[..|s| - 1])
  {
  }

  lemma {:induction false} TrimDone(s: string)
    requires s == "" || !IsPadding(s[|s| - 1])
    ensures Trimmed(s) == s
  {
  }

  /** The datagrams a finished line is worth: none, or one closed by CR LF. */
  function LineWorth(line: string): seq<string> {
    if Extract(line) == "" then [] else [Extract(line) + "\r\n"]
  }

  /** The datagrams of a stream: one line after the other, carriage returns removed, the
      unfinished last line ignored. */
  function Datagrams(stream: string): seq<string> {
    var n := IndexOf(stream, '\n');
    if n == |stream| then [] else LineWorth(Without(stream[..n], '\r')) + Datagrams(stream[n + 1..])
  }

  /** The router's loop over everything it reads. */
  method Route(stream: string) returns (datagrams: seq<string>)
    ensures datagrams == Datagrams(stream)
  {
    hide Extract, Datagrams, Pending;
    var line := "";
    datagrams := [];
    assert stream[0..] == stream;
    AtLineStart(stream);
    for i := 0 to |stream|
      invariant datagrams + Pending(line, stream[i..]) == Datagrams(stream)
    {
      var c := stream[i];
      assert stream[i..] == [c] + stream[i + 1..];
      PendingStep(line, c, stream[i + 1..]);
      if c == '\n' {
        ghost var sent, rest := datagrams, Datagrams(stream[i + 1..]);
        var nmea := ExtractNmea(line);
        if nmea != "" {
          datagrams := datagrams + [nmea + "\r\n"];
        }
        assert sent + (LineWorth(line) + rest) == datagrams + rest;
        line := "";
        AtLineStart(stream[i + 1..]);
      } else if c != '\r' {
        line := line + [c];
      }
    }
    NothingPending(line);
    assert stream[|stream|..] == "";
  }

  lemma {:induction false} NothingPending(line: string)
    ensures Pending(line, "") == []
  {
  }

  /** What is still to be sent when line stands in the buffer. */
  function Pending(line: string, stream: string): seq<string> {
    var n := IndexOf(stream, '\n');
    if n == |stream| then []
    else LineWorth(line + Without(stream[..n], '\r')) + Datagrams(stream[n + 1..])
  }

  lemma {:induction false} AtLineStart(stream: string)
    ensures Pending("", stream) == Datagrams(stream)
  {
    var n := IndexOf(stream, '\n');
    assert "" + Without(stream[..n], '\r') == Without(stream[..n], '\r');
  }

  lemma {:induction false} PendingStep(line: string, c: char, tail: string)
    ensures Pending(line, [c] + tail) ==
      if c == '\n' then LineWorth(line) + Datagrams(tail)
      else Pending(if c == '\r' then line else line + [c], tail)
  {
    hide Pending, LineWorth, Datagrams;
    if c == '\n' {
      PendingEnds(line, tail);
    } else {
      PendingGoesOn(line, c, tail);
    }
  }

  lemma {:induction false} PendingEnds(line: string, tail: string)
    ensures Pending(line, ['\n'] + tail) == LineWorth(line) + Datagrams(tail)
  {
    hide LineWorth, Datagrams, IndexOf;
    var stream := ['\n'] + tail;
    IndexOfIs(stream, '\n', 0);
    assert stream[..0] == "" && Without("", '\r') == "" && line + "" == line;
    assert stream[0 + 1..] == tail;
  }

  lemma {:induction false} PendingGoesOn(line: string, c: char, tail: string)
    requires c != '\n'
    ensures Pending(line, [c] + tail) == Pending(if c == '\r' then line else line + [c], tail)
  {
    hide LineWorth, Datagrams, IndexOf, Without;
    var stream, n := [c] + tail, IndexOf(tail, '\n');
    IndexOfIs(stream, '\n', 1 + n);
    if n < |tail| {
      assert stream[1 + n + 1..] == tail[n + 1..];
      LineGrows(line, c, tail[..n]);
      assert stream[..1 + n] == [c] + tail[..n];
    }
  }

  lemma {:induction false} LineGrows(line: string, c: char, s: string)
    ensures line + Without([c] + s, '\r') == (if c == '\r' then line else line + [c]) + Without(s, '\r')
  {
    hide Without;
    WithoutHead(c, s, '\r');
    assert line + ([c] + Without(s, '\r')) == (line + [c]) + Without(s, '\r');
  }

  // ---- When the router recovers a printed sentence

  /** Exactly the tagged sentences that end in no padding and within two characters of their
      first star come out unchanged. */
  lemma {:induction false} ExtractRecoversIff(s: string)
    requires s != "" && s[0] == '$'
    ensures Extract(PREFIX + s) == s <==> !IsPadding(s[|s| - 1]) && IndexOf(s, '*') + 3 >= |s|
  {
    var line := PREFIX + s;
    assert PREFIX <= line && Find(line, PREFIX) == 0;
    assert line[|PREFIX|..] == s;
    if IsPadding(s[|s| - 1]) {
      assert Trimmed(s) == Trimmed(s[..|s| - 1]);
      assert |Extract(line)| < |s|;
    }
  }

  lemma {:induction false} PrintedLineIsRecovered(s: string, more: string)
    requires s != "" && s[0] == '$' && '\r' !in s && '\n' !in s
    requires !IsPadding(s[|s| - 1]) && IndexOf(s, '*') + 3 >= |s|
    ensures Datagrams("@NMEA " + s + "\r\n" + more) == [s + "\r\n"] + Datagrams(more)
  {
    hide Extract, CutAfterChecksum;
    var line := PREFIX + s;
    var stream := line + "\r\n" + more;
    IndexOfIs(stream, '\n', |line| + 1);
    assert stream[..|line| + 1] == line + "\r";
    assert stream[|line| + 2..] == more;
    WithoutLast(line, '\r');
    ExtractRecoversIff(s);
  }

  // ---- What becomes of any line

  /** The first tag counts, if there is one. */
  lemma {:induction false} FindIsFirst(s: string, pattern: string, k: nat)
    requires k + |pattern| <= |s| && s[k..k + |pattern|] == pattern
    ensures 0 <= Find(s, pattern) <= k
  {
    if k > 0 && !(pattern <= s) {
      assert s[1..][k - 1..k - 1 + |pattern|] == s[k..k + |pattern|];
      FindIsFirst(s[1..], pattern, k - 1);
    }
  }

  lemma {:induction false} FindAfterNoise(noise: string, rest: string)
    requires '@' !in noise
    ensures Find(noise + PREFIX + rest, PREFIX) == |noise|
  {
    hide Find;
    var line := noise + PREFIX + rest;
    assert line[|noise|..|noise| + |PREFIX|] == PREFIX;
    FindIsFirst(line, PREFIX, |noise|);
    var i := Find(line, PREFIX);
    assert line[i..i + |PREFIX|][0] == line[i];
  }

  lemma {:induction false} ExtractAfterNoise(noise: string, rest: string)
    requires '@' !in noise
    ensures var s := Trimmed(rest);
            Extract(noise + "@NMEA " + rest) ==
              if s == "" || (s[0] != '$' && s[0] != '!') then "" else CutAfterChecksum(s)
  {
    hide Find, Trimmed, CutAfterChecksum;
    FindAfterNoise(noise, rest);
    var line := noise + PREFIX + rest;
    assert line[|noise| + |PREFIX|..] == rest;
  }

  /** Text before the tag and after the checksum is dropped. */
  lemma {:induction false} ChecksumEndsSentence(noise: string, s: string, more: string)
    requires '@' !in noise && s != "" && (s[0] == '$' || s[0] == '!')
    requires IndexOf(s, '*') + 3 == |s| && s[|s| - 1] != ' ' && s[|s| - 1] != '\r' && s[|s| - 1] != '\n'
    ensures Extract(noise + "@NMEA " + s + more) == s
  {
    hide Extract, Trimmed, IndexOf;
    assert noise + "@NMEA " + s + more == noise + "@NMEA " + (s + more);
    ExtractAfterNoise(noise, s + more);
    var t := Trimmed(s + more);
    assert (s + more)[|s| - 1] == s[|s| - 1];
    assert |t| >= |s| && t[..|s|] == s;
    IndexOfIs(t, '*', |s| - 3);
  }

  /** A sentence without a whole checksum is kept up to the padding after it. */
  lemma {:induction false} PaddingIsDropped(noise: string, s: string, padding: string)
    requires '@' !in noise && s != "" && (s[0] == '$' || s[0] == '!')
    requires IndexOf(s, '*') + 3 >= |s| && s[|s| - 1] != ' ' && s[|s| - 1] != '\r' && s[|s| - 1] != '\n'
    requires forall i :: 0 <= i < |padding| ==> padding[i] == ' ' || padding[i] == '\r' || padding[i] == '\n'
    ensures Extract(noise + "@NMEA " + s + padding) == s
  {
    hide Extract, Trimmed, IndexOf;
    assert noise + "@NMEA " + s + padding == noise + "@NMEA " + (s + padding);
    ExtractAfterNoise(noise, s + padding);
    var t := Trimmed(s + padding);
    assert (s + padding)[|s| - 1] == s[|s| - 1];
    assert forall k :: |s| <= k < |s| + |padding| ==> (s + padding)[k] == padding[k - |s|];
    assert |t| <= |s|;
    assert t == s;
  }

  /** What begins with neither '$' nor '!' is no sentence. */
  lemma {:induction false} OtherTextIsDropped(noise: string, s: string)
    requires '@' !in noise && (s == "" || (s[0] != '$' && s[0] != '!'))
    ensures Extract(noise + "@NMEA " + s) == ""
  {
    hide Extract, Trimmed;
    ExtractAfterNoise(noise, s);
  }

  /** A line that has not ended is held back, and carriage returns do not count. */
  lemma {:induction false} LineLaw(a: string, b: string, more: string)
    requires '\n' !in a && '\n' !in b
    ensures Datagrams(a) == []
    ensures Datagrams(a + "\r" + b + "\n" + more) == Datagrams(a + b + "\n" + more)
    ensures Datagrams(a + "\n" + more) == Datagrams(a + "\n") + Datagrams(more)
  {
    hide LineWorth, Without;
    IndexOfIs(a, '\n', |a|);
    LineFirst(a + "\r" + b, more);
    LineFirst(a + b, more);
    LineFirst(a, more);
    LineFirst(a, "");
    NothingSent();
    assert a + "\n" + "" == a + "\n";
    WithoutAdds(a + "\r", b, '\r');
    WithoutAdds(a, b, '\r');
    WithoutAdds(a, "\r", '\r');
    OnlyReturn();
    assert Without(a, '\r') + "" == Without(a, '\r');
  }

  lemma {:induction false} LineFirst(line: string, more: string)
    requires '\n' !in line
    ensures Datagrams(line + "\n" + more) == LineWorth(Without(line, '\r')) + Datagrams(more)
  {
    hide LineWorth, Without, IndexOf;
    var stream := line + "\n" + more;
    IndexOfIs(stream, '\n', |line|);
    assert stream[..|line|] == line && stream[|line| + 1..] == more;
  }

  lemma {:induction false} NothingSent()
    ensures Datagrams("") == []
  {
  }

  lemma {:induction false} OnlyReturn()
    ensures Without("\r", '\r') == ""
  {
  }

  // ---- Text that carries no sentence

  /** Complete lines without the tag. */
  ghost predicate Quiet(text: string) {
    && (text == "" || text[|text| - 1] == '\n')
    && '\r' !in text
    && Find(text, PREFIX) < 0
  }

  lemma {:induction false} QuietTextIsSkipped(text: string, more: string)
    requires Quiet(text)
    ensures Datagrams(text + more) == Datagrams(more)
    decreases |text|
  {
    hide Quiet, Datagrams, LineWorth, IndexOf;
    if text == "" {
      assert text + more == more;
    } else {
      QuietLine(text);
      FirstLine(text, more);
      QuietTextIsSkipped(text[IndexOf(text, '\n') + 1..], more);
    }
  }

  lemma {:induction false} FirstLine(text: string, more: string)
    requires IndexOf(text, '\n') < |text|
    ensures var n := IndexOf(text, '\n');
            Datagrams(text + more) == LineWorth(Without(text[..n], '\r')) + Datagrams(text[n + 1..] + more)
  {
    hide LineWorth, Without, IndexOf;
    var n := IndexOf(text, '\n');
    IndexOfIs(text + more, '\n', n);
    assert (text + more)[..n] == text[..n];
    assert (text + more)[n + 1..] == text[n + 1..] + more;
  }

  /** The first line of a quiet text is worth nothing, and the rest is quiet. */
  lemma {:induction false} QuietLine(text: string)
    requires Quiet(text) && text != ""
    ensures var n := IndexOf(text, '\n');
            n < |text| && LineWorth(Without(text[..n], '\r')) == [] && Quiet(text[n + 1..])
  {
    hide Find, Trimmed, CutAfterChecksum, Without, IndexOf;
    var n := IndexOf(text, '\n');
    assert text[|text| - 1] == '\n';
    WithoutNone(text[..n], '\r');
    FindInPart(text, 0, n);
    FindInPart(text, n + 1, |text|);
    assert text[0..n] == text[..n] && text[n + 1..|text|] == text[n + 1..];
  }

  /** What does not occur in a text does not occur in a part of it. */
  lemma {:induction false} FindInPart(s: string, lo: nat, hi: nat)
    requires lo <= hi <= |s| && Find(s, PREFIX) < 0
    ensures Find(s[lo..hi], PREFIX) < 0
  {
    var i := Find(s[lo..hi], PREFIX);
    if i >= 0 {
      SliceOfSlice(s, lo, hi, i, i + |PREFIX|);
      OccurrenceIsFound(s, lo + i);
    }
  }

  lemma {:induction false} SliceOfSlice(s: string, lo: nat, hi: nat, a: nat, b: nat)
    requires lo <= hi <= |s| && a <= b <= hi - lo
    ensures s[lo..hi][a..b] == s[lo + a..lo + b]
  {
    var x, y := s[lo..hi][a..b], s[lo + a..lo + b];
    assert forall i :: 0 <= i < |x| ==> x[i] == s[lo + a + i] && y[i] == s[lo + a + i];
    assert x == y;
  }

  lemma {:induction false} OccurrenceIsFound(s: string, k: nat)
    requires k + |PREFIX| <= |s| && s[k..k + |PREFIX|] == PREFIX
    ensures Find(s, PREFIX) >= 0
  {
    if k == 0 {
      assert PREFIX <= s;
    } else {
      assert s[1..][k - 1..k - 1 + |PREFIX|] == s[k..k + |PREFIX|];
      OccurrenceIsFound(s[1..], k - 1);
    }
  }
}
