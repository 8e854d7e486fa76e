/** Framing of NMEA 0183 sentences from the GPS byte stream (section 5.3 of NMEA 0183), one
    char per byte. */
module NmeaFramer {

  const MAX_SENTENCE_LEN := 128

  // ---- The state machine of consume_byte

  // text is what stands in the sentence buffer before the write position.
  datatype Framer = Framer(text: string, complete: bool)
  {
    ghost predicate Valid() {
      && |text| < MAX_SENTENCE_LEN
      && (complete ==> text == "")
    }
  }

  const IDLE := Framer("", true)

  /** What a reader of the C string sees: the characters before the first NUL. */
  function CString(s: string): string {
    s[..IndexOf(s, '\0')]
  }

  /** The position of the first c in s, or |s|. */
  function IndexOf(s: string, c: char): (i: nat)
    ensures i <= |s| && (i < |s| ==> s[i] == c)
    ensures forall j :: 0 <= j < i ==> s[j] != c
  {
    if s == "" || s[0] == c then 0 else 1 + IndexOf(s[1..], c)
  }

  /** One byte: the next state, and the sentence handed on, if any. */
  function Consume(f: Framer, byte: char): (Framer, seq<string>) {
    if byte == '$' then (Framer("$", false), [])
    else if f.complete || byte == '\r' then (f, [])
    else if byte == '\n' then (IDLE, [CString(f.text)])
    else if |f.text| < MAX_SENTENCE_LEN - 1 then (Framer(f.text + [byte], false), [])
    else (IDLE, [])
  }

  function After(f: Framer, bytes: string): Framer
    decreases |bytes|
  {
    if bytes == "" then f else After(Consume(f, bytes[0]).0, bytes[1..])
  }

  function Delivered(f: Framer, bytes: string): seq<string>
    decreases |bytes|
  {
    if bytes == "" then [] else Consume(f, bytes[0]).1 + Delivered(Consume(f, bytes[0]).0, bytes[1..])
  }

  /** Feeding two chunks is feeding their concatenation. */
  lemma {:induction false} Chunks(f: Framer, a: string, b: string)
    ensures After(f, a + b) == After(After(f, a), b)
    ensures Delivered(f, a + b) == Delivered(f, a) + Delivered(After(f, a), b)
    decreases |a|
  {
    hide Consume;
    if a == "" {
      assert a + b == b;
    } else {
      assert (a + b)[1..] == a[1..] + b;
      Chunks(Consume(f, a[0]).0, a[1..], b);
    }
  }

  // ---- The same, over the sentence buffer

  class SentenceBuffer {
    const sentence: array<char>
    var sentenceLen: nat
    var sentenceComplete: bool

    ghost predicate Valid()
      reads this, sentence
    {
      && sentence.Length == MAX_SENTENCE_LEN && sentenceLen < MAX_SENTENCE_LEN
      && (sentenceComplete ==> sentenceLen == 0)
    }

    ghost function Model(): (f: Framer)
      requires Valid()
      reads this, sentence
      ensures f.Valid()
    {
      Framer(sentence[..sentenceLen], sentenceComplete)
    }

    constructor ()
      ensures Valid() && fresh(sentence) && Model() == IDLE
    {
      sentence := new char[MAX_SENTENCE_LEN];
      sentenceLen, sentenceComplete := 0, true;
    }

    /** Every index stays inside the buffer; the sentence handed on is read back as a C string. */
    method ConsumeByte(byte: char) returns (delivered: seq<string>)
      requires Valid()
      modifies this, sentence
      ensures Valid() && (Model(), delivered) == Consume(old(Model()), byte)
    {
      if byte == '$' {
        sentence[0] := byte;
        sentenceLen := 1;
        sentenceComplete := false;
        assert sentence[..sentenceLen] == "$";
        return [];
      }
      if sentenceComplete {
        return [];
      }
      if byte == '\r' {
        return [];
      }
      if byte == '\n' {
        sentenceComplete := true;
        sentence[sentenceLen] := '\0';
        var text := ReadCString();
        TerminatedCString(sentence[..], sentenceLen);
        assert sentence[..sentenceLen] == old(sentence[..sentenceLen]);
        sentenceLen := 0;
        return [text];
      }
      if sentenceLen < MAX_SENTENCE_LEN - 1 {
        sentence[sentenceLen] := byte;
        sentenceLen := sentenceLen + 1;
        assert sentence[..sentenceLen] == old(sentence[..sentenceLen]) + [byte];
        return [];
      }
      sentenceComplete := true;
      sentenceLen := 0;
      sentence[0] := '\0';
      return [];
    }

    method ReadCString() returns (s: string)
      requires '\0' in sentence[..]
      ensures s == CString(sentence[..])
    {
      var i := 0;
      ghost var end := IndexOf(sentence[..], '\0');
      while sentence[i] != '\0'
        invariant i <= end < sentence.Length
        invariant forall k :: 0 <= k < i ==> sentence[k] != '\0'
        decreases end - i
      {
        assert sentence[..][i] != '\0';
        i := i + 1;
      }
      IndexOfIs(sentence[..], '\0', i);
      return sentence[..i];
    }

    /** consume_uart_data over one read. */
    method ConsumeUartData(data: string) returns (delivered: seq<string>)
      requires Valid()
      modifies this, sentence
      ensures Valid() && Model() == After(old(Model()), data) && delivered == Delivered(old(Model()), data)
    {
      delivered := [];
      for i := 0 to |data|
        invariant Valid() && Model() == After(old(Model()), data[..i])
        invariant delivered == Delivered(old(Model()), data[..i])
      {
        Chunks(old(Model()), data[..i], [data[i]]);
        OneByte(Model(), data[i]);
        assert data[..i + 1] == data[..i] + [data[i]];
        var d := ConsumeByte(data[i]);
        delivered := delivered + d;
      }
      assert data[..|data|] == data;
    }
  }

  /** The deliveries of a buffer fed from the start in any chunking. */
  method ReceiveAll(chunks: seq<string>) returns (delivered: seq<string>)
    ensures delivered == Delivered(IDLE, Concat(chunks))
  {
    var buffer := new SentenceBuffer();
    delivered := [];
    for i := 0 to |chunks|
      invariant buffer.Valid() && fresh(buffer) && fresh(buffer.sentence)
      invariant buffer.Model() == After(IDLE, Concat(chunks[..i]))
      invariant delivered == Delivered(IDLE, Concat(chunks[..i]))
    {
      assert chunks[..i + 1][..i] == chunks[..i];
      Chunks(IDLE, Concat(chunks[..i]), chunks[i]);
      var d := buffer.ConsumeUartData(chunks[i]);
      delivered := delivered + d;
    }
    assert chunks[..|chunks|] == chunks;
  }

  function Concat(chunks: seq<string>): string {
    if chunks == [] then "" else Concat(chunks[..|chunks| - 1]) + chunks[|chunks| - 1]
  }

  lemma {:induction false} OneByte(f: Framer, byte: char)
    ensures After(f, [byte]) == Consume(f, byte).0 && Delivered(f, [byte]) == Consume(f, byte).1
  {
    hide Consume;
    assert [byte][1..] == "";
    assert Delivered(Consume(f, byte).0, "") == [];
  }

  lemma {:induction false} IndexOfIs(s: string, c: char, i: nat)
    requires i <= |s| && (i < |s| ==> s[i] == c)
    requires forall j :: 0 <= j < i ==> s[j] != c
    ensures IndexOf(s, c) == i
  {
  }

  lemma {:induction false} TerminatedCString(s: string, n: nat)
    requires n < |s| && s[n] == '\0'
    ensures CString(s) == CString(s[..n])
  {
    var k := IndexOf(s, '\0');
    IndexOfIs(s[..n], '\0', k);
    assert s[..n][..k] == s[..k];
  }

  // ---- What the whole stream means, without a state machine

  function Without(s: string, c: char): string {
    if s == "" then "" else (if s[0] == c then "" else [s[0]]) + Without(s[1..], c)
  }

  /** The sentence that starts with text and goes on in body, which holds no further '$': it ends
      at the line feed, carriage returns do not count, and it must fit the buffer. */
  function Finished(text: string, body: string): seq<string> {
    var n := IndexOf(body, '\n');
    var whole := text + Without(body[..n], '\r');
    if n < |body| && |whole| < MAX_SENTENCE_LEN then [CString(whole)] else []
  }

  /** The stream cut at every '$'; each piece yields at most one sentence. */
  function Sentences(stream: string): seq<string>
    decreases |stream|, 0
  {
    var d := IndexOf(stream, '$');
    if d == |stream| then [] else AfterDollar(stream[d + 1..])
  }

  function AfterDollar(rest: string): seq<string>
    decreases |rest|, 1
  {
    var end := IndexOf(rest, '$');
    Finished("$", rest[..end]) + Sentences(rest[end..])
  }

  /** What the framer still has to deliver: it finishes the sentence it is in, then the rest. */
  function Meaning(f: Framer, stream: string): seq<string> {
    if f.complete then Sentences(stream)
    else
      var end := IndexOf(stream, '$');
      Finished(f.text, stream[..end]) + Sentences(stream[end..])
  }

  /** For every byte stream the framer delivers exactly the sentences of the stream. */
  lemma {:induction false} FramerDeliversSentences(stream: string)
    ensures Delivered(IDLE, stream) == Sentences(stream)
  {
    FramerMeaning(IDLE, stream);
  }

  lemma {:induction false} FramerMeaning(f: Framer, stream: string)
    requires f.Valid()
    ensures Delivered(f, stream) == Meaning(f, stream)
    decreases |stream|
  {
    hide CString, Sentences, Meaning;
    if stream == "" {
      NothingLeft(f);
    } else {
      assert stream == [stream[0]] + stream[1..];
      FramerMeaning(Consume(f, stream[0]).0, stream[1..]);
      MeaningOfByte(f, stream[0], stream[1..]);
    }
  }

  lemma {:induction false} NothingLeft(f: Framer)
    ensures Meaning(f, "") == []
  {
  }

  lemma {:induction false} MeaningOfByte(f: Framer, byte: char, tail: string)
    requires f.Valid()
    ensures Meaning(f, [byte] + tail) == Consume(f, byte).1 + Meaning(Consume(f, byte).0, tail)
  {
    hide CString, Sentences, Finished, IndexOf;
    var stream, end := [byte] + tail, IndexOf(tail, '$');
    if byte == '$' {
      IndexOfIs(stream, '$', 0);
      SentencesFromDollar(tail);
      EmptyBody(f.text);
      assert stream[..0] == "" && stream[0..] == stream;
    } else {
      IndexOfIs(stream, '$', 1 + end);
      assert stream[..1 + end] == [byte] + tail[..end];
      assert stream[1 + end..] == tail[end..];
      SentencesSkip(stream);
      SentencesSkip(tail);
      if !f.complete {
        BodyByte(f, byte, tail[..end]);
      }
    }
  }

  lemma {:induction false} SentencesFromDollar(tail: string)
    ensures Sentences("$" + tail) == Meaning(Framer("$", false), tail)
  {
    hide Finished, IndexOf;
    var stream := "$" + tail;
    IndexOfIs(stream, '$', 0);
    assert stream[0 + 1..] == tail;
  }

  lemma {:induction false} EmptyBody(text: string)
    ensures Finished(text, "") == []
  {
  }

  /** Nothing before the first '$' matters. */
  lemma {:induction false} SentencesSkip(s: string)
    ensures Sentences(s[IndexOf(s, '$')..]) == Sentences(s)
  {
    hide AfterDollar, IndexOf;
    var d := IndexOf(s, '$');
    if d < |s| {
      var t := s[d..];
      IndexOfIs(t, '$', 0);
      assert t[0 + 1..] == s[d + 1..];
    } else {
      assert s[d..] == "";
    }
  }

  /** One more byte inside a sentence. */
  lemma {:induction false} BodyByte(f: Framer, byte: char, body: string)
    requires f.Valid() && !f.complete && byte != '$'
    ensures var (g, out) := Consume(f, byte);
            Finished(f.text, [byte] + body) == out + if g.complete then [] else Finished(g.text, body)
  {
    hide CString, Finished;
    if byte == '\n' {
      BodyEnds(f.text, body);
    } else {
      BodyGoesOn(f.text, byte, body);
      if |f.text| + 1 >= MAX_SENTENCE_LEN {
        TooLong(f.text + [byte], body);
      }
    }
  }

  lemma {:induction false} BodyEnds(text: string, body: string)
    requires |text| < MAX_SENTENCE_LEN
    ensures Finished(text, ['\n'] + body) == [CString(text)]
  {
    hide CString;
    var stream := ['\n'] + body;
    IndexOfIs(stream, '\n', 0);
    assert stream[..0] == "" && Without("", '\r') == "";
    assert text + "" == text;
  }

  lemma {:induction false} BodyGoesOn(text: string, byte: char, body: string)
    requires byte != '\n'
    ensures Finished(text, [byte] + body) == if byte == '\r' then Finished(text, body) else Finished(text + [byte], body)
  {
    hide CString, Without;
    var stream, n := [byte] + body, IndexOf(body, '\n');
    IndexOfIs(stream, '\n', 1 + n);
    assert stream[..1 + n] == [byte] + body[..n];
    WithoutHead(byte, body[..n], '\r');
    var kept := Without(body[..n], '\r');
    assert text + ([byte] + kept) == (text + [byte]) + kept;
  }

  lemma {:induction false} TooLong(text: string, body: string)
    requires |text| >= MAX_SENTENCE_LEN
    ensures Finished(text, body) == []
  {
    hide Without, CString;
  }

  lemma {:induction false} WithoutHead(x: char, s: string, c: char)
    ensures Without([x] + s, c) == if x == c then Without(s, c) else [x] + Without(s, c)
  {
    assert ([x] + s)[1..] == s;
  }

  // ---- Properties of the deliveries

  /** A sentence as the talker meant it. */
  ghost predicate Clean(payload: string) {
    && |payload| < MAX_SENTENCE_LEN - 1
    && '$' !in payload && '\r' !in payload && '\n' !in payload && '\0' !in payload
  }

  datatype Item = Item(noise: string, payload: string)

  /** Sentences in order, each closed by CR LF, with noise before each and after the last. */
  function Encode(items: seq<Item>, trailing: string): string {
    if items == [] then trailing
    else items[0].noise + "$" + items[0].payload + "\r\n" + Encode(items[1..], trailing)
  }

  function Payloads(items: seq<Item>): (r: seq<string>)
    ensures |r| == |items|
  {
    seq(|items|, i requires 0 <= i < |items| => "$" + items[i].payload)
  }

  /** Round trip: however the encoded stream is chunked, exactly the sentences arrive. */
  lemma {:induction false} EncodedSentencesArrive(items: seq<Item>, trailing: string)
    requires forall i :: 0 <= i < |items| ==> '$' !in items[i].noise && Clean(items[i].payload)
    requires '$' !in trailing
    ensures Delivered(IDLE, Encode(items, trailing)) == Payloads(items)
  {
    FramerDeliversSentences(Encode(items, trailing));
    EncodedSentences(items, trailing);
  }

  lemma {:induction false} EncodedSentences(items: seq<Item>, trailing: string)
    requires forall i :: 0 <= i < |items| ==> '$' !in items[i].noise && Clean(items[i].payload)
    requires '$' !in trailing
    ensures Sentences(Encode(items, trailing)) == Payloads(items)
  {
    hide Sentences, Clean;
    if items == [] {
      NoSentences(trailing);
    } else {
      EncodedSentences(items[1..], trailing);
      OneEncoded(items[0].noise, items[0].payload, Encode(items[1..], trailing));
      assert Payloads(items) == ["$" + items[0].payload] + Payloads(items[1..]);
    }
  }

  lemma {:induction false} NoSentences(s: string)
    requires '$' !in s
    ensures Sentences(s) == []
  {
    IndexOfIs(s, '$', |s|);
  }

  lemma {:induction false} OneEncoded(noise: string, payload: string, more: string)
    requires '$' !in noise && Clean(payload)
    ensures Sentences(noise + "$" + payload + "\r\n" + more) == ["$" + payload] + Sentences(more)
  {
    hide Sentences, Finished, CString, IndexOf;
    var stream := noise + "$" + payload + "\r\n" + more;
    var rest := payload + "\r\n" + more;
    var d := IndexOf(more, '$');
    IndexOfIs(stream, '$', |noise|);
    assert stream[|noise|..] == "$" + rest;
    SentencesSkip(stream);
    SentencesFromDollar(rest);
    IndexOfIs(rest, '$', |payload| + 2 + d);
    assert rest[..|payload| + 2 + d] == payload + "\r\n" + more[..d];
    assert rest[|payload| + 2 + d..] == more[d..];
    FinishedSentence(payload, more[..d]);
    SentencesSkip(more);
  }

  lemma {:induction false} FinishedSentence(payload: string, noise: string)
    requires Clean(payload)
    ensures Finished("$", payload + "\r\n" + noise) == ["$" + payload]
  {
    var body := payload + "\r\n" + noise;
    IndexOfIs(body, '\n', |payload| + 1);
    assert body[..|payload| + 1] == payload + "\r";
    WithoutLast(payload, '\r');
    IndexOfIs("$" + payload, '\0', |payload| + 1);
    assert ("$" + payload)[..|payload| + 1] == "$" + payload;
  }

  lemma {:induction false} WithoutLast(s: string, c: char)
    requires c !in s
    ensures Without(s + [c], c) == s
  {
    if s == "" {
      assert [c][1..] == "" && Without("", c) == "";
      assert s + [c] == [c];
    } else {
      assert (s + [c])[1..] == s[1..] + [c];
      WithoutLast(s[1..], c);
    }
  }

  /** Whatever the stream, every delivered sentence starts with '$', fits the buffer and holds
      no CR, LF, NUL or second '$'. */
  ghost predicate WellFramed(s: string) {
    s != "" && s[0] == '$' && Clean(s[1..])
  }

  lemma {:induction false} DeliveriesWellFramed(stream: string)
    ensures AllWellFramed(Delivered(IDLE, stream))
  {
    FramerDeliversSentences(stream);
    SentencesWellFramed(stream);
  }

  ghost predicate AllWellFramed(sentences: seq<string>) {
    forall s :: s in sentences ==> WellFramed(s)
  }

  lemma {:induction false} SentencesWellFramed(stream: string)
    ensures AllWellFramed(Sentences(stream))
    decreases |stream|, 0
  {
    hide AfterDollar, AllWellFramed, IndexOf;
    var d := IndexOf(stream, '$');
    if d < |stream| {
      AfterDollarWellFramed(stream[d + 1..]);
    } else {
      NoneWellFramed();
    }
  }

  lemma {:induction false} AfterDollarWellFramed(rest: string)
    ensures AllWellFramed(AfterDollar(rest))
    decreases |rest|, 1
  {
    hide Sentences, Finished, AllWellFramed, IndexOf;
    var end := IndexOf(rest, '$');
    SentencesWellFramed(rest[end..]);
    FinishedWellFramed(rest[..end]);
    JoinWellFramed(Finished("$", rest[..end]), Sentences(rest[end..]));
  }

  lemma {:induction false} JoinWellFramed(a: seq<string>, b: seq<string>)
    requires AllWellFramed(a) && AllWellFramed(b)
    ensures AllWellFramed(a + b)
  {
  }

  lemma {:induction false} NoneWellFramed()
    ensures AllWellFramed([])
  {
  }

  lemma {:induction false} FinishedWellFramed(body: string)
    requires '$' !in body
    ensures AllWellFramed(Finished("$", body))
  {
    hide CString, WellFramed;
    var n := IndexOf(body, '\n');
    var kept := Without(body[..n], '\r');
    WithoutKeeps(body[..n], '\r');
    if |"$" + kept| < MAX_SENTENCE_LEN {
      CStringWellFramed(kept);
    }
  }

  lemma {:induction false} CStringWellFramed(kept: string)
    requires |kept| < MAX_SENTENCE_LEN - 1 && '$' !in kept && '\r' !in kept && '\n' !in kept
    ensures WellFramed(CString("$" + kept))
  {
    var k := IndexOf(kept, '\0');
    IndexOfIs("$" + kept, '\0', 1 + k);
    assert ("$" + kept)[..1 + k] == "$" + kept[..k];
    assert ("$" + kept[..k])[1..] == kept[..k];
  }

  lemma {:induction false} WithoutKeeps(s: string, c: char)
    ensures c !in Without(s, c)
    ensures forall x :: x in Without(s, c) ==> x in s
    ensures |Without(s, c)| <= |s|
  {
    if s != "" {
      WithoutKeeps(s[1..], c);
    }
  }

  // ---- Single sentences, in numbers

  ghost predicate HasNone(s: string, excluded: string) {
    forall i :: 0 <= i < |s| ==> s[i] !in excluded
  }

  lemma {:induction false} OneSentence(body: string)
    requires '$' !in body
    ensures Delivered(IDLE, "$" + body) == Finished("$", body)
  {
    hide Delivered, Finished, IndexOf;
    FramerDeliversSentences("$" + body);
    IndexOfIs("$" + body, '$', 0);
    IndexOfIs(body, '$', |body|);
    assert ("$" + body)[0 + 1..] == body && body[..|body|] == body && body[|body|..] == "";
    NoSentences("");
  }

  /** A sentence arrives exactly if it has at most 126 characters after the '$'. */
  lemma {:induction false} SentenceArrivesIff(payload: string)
    requires HasNone(payload, "$\r\n\0")
    ensures Delivered(IDLE, "$" + payload + "\r\n") == if |payload| <= 126 then ["$" + payload] else []
  {
    hide Delivered, Finished;
    var body := payload + "\r\n";
    assert "$" + payload + "\r\n" == "$" + body;
    OneSentence(body);
    assert payload + "\r\n" + "" == body;
    if |payload| <= 126 {
      FinishedSentence(payload, "");
    } else {
      LongSentence(payload);
    }
  }

  lemma {:induction false} LongSentence(payload: string)
    requires HasNone(payload, "$\r\n\0") && |payload| > 126
    ensures Finished("$", payload + "\r\n") == []
  {
    var body := payload + "\r\n";
    IndexOfIs(body, '\n', |payload| + 1);
    assert body[..|payload| + 1] == payload + "\r";
    WithoutLast(payload, '\r');
  }

  /** A carriage return inside does not count, and a NUL ends what is handed on. */
  lemma {:induction false} SplitSentence(a: string, b: string)
    requires HasNone(a, "$\r\n\0") && HasNone(b, "$\r\n\0") && |a| + |b| <= 125
    ensures Delivered(IDLE, "$" + a + "\r" + b + "\n") == ["$" + a + b]
    ensures Delivered(IDLE, "$" + a + "\0" + b + "\n") == ["$" + a]
  {
    hide Delivered, Finished;
    var cr, nul := a + "\r" + b + "\n", a + "\0" + b + "\n";
    assert "$" + a + "\r" + b + "\n" == "$" + cr && "$" + a + "\0" + b + "\n" == "$" + nul;
    OneSentence(cr);
    OneSentence(nul);
    FinishedWithReturn(a, b);
    FinishedWithNul(a, b);
  }

  lemma {:induction false} FinishedWithReturn(a: string, b: string)
    requires HasNone(a, "$\r\n\0") && HasNone(b, "$\r\n\0") && |a| + |b| <= 125
    ensures Finished("$", a + "\r" + b + "\n") == ["$" + a + b]
  {
    hide Without, IndexOf;
    var body := a + "\r" + b + "\n";
    IndexOfIs(body, '\n', |a| + 1 + |b|);
    assert body[..|a| + 1 + |b|] == (a + "\r") + b;
    WithoutAdds(a + "\r", b, '\r');
    WithoutLast(a, '\r');
    WithoutNone(b, '\r');
    assert "$" + (a + b) == "$" + a + b;
    IndexOfIs("$" + (a + b), '\0', 1 + |a| + |b|);
    assert ("$" + (a + b))[..1 + |a| + |b|] == "$" + (a + b);
  }

  lemma {:induction false} FinishedWithNul(a: string, b: string)
    requires HasNone(a, "$\r\n\0") && HasNone(b, "$\r\n\0") && |a| + |b| <= 125
    ensures Finished("$", a + "\0" + b + "\n") == ["$" + a]
  {
    hide Without, IndexOf;
    var body, kept := a + "\0" + b + "\n", a + "\0" + b;
    IndexOfIs(body, '\n', |kept|);
    assert body[..|kept|] == kept;
    WithoutNone(kept, '\r');
    IndexOfIs("$" + kept, '\0', 1 + |a|);
    assert ("$" + kept)[..1 + |a|] == "$" + a;
  }

  lemma {:induction false} WithoutAdds(a: string, b: string, c: char)
    ensures Without(a + b, c) == Without(a, c) + Without(b, c)
  {
    if a == "" {
      assert a + b == b;
    } else {
      assert (a + b)[1..] == a[1..] + b;
      WithoutAdds(a[1..], b, c);
    }
  }

  lemma {:induction false} WithoutNone(s: string, c: char)
    requires c !in s
    ensures Without(s, c) == s
  {
    if s != "" {
      WithoutNone(s[1..], c);
    }
  }

  /** What was begun before a new '$' is dropped, and so is what lies outside of sentences. */
  lemma {:induction false} CutOffIsDropped(noise: string, part: string, more: string)
    requires HasNone(noise, "$") && HasNone(part, "$\n")
    ensures Delivered(IDLE, noise + "$" + part + "$" + more) == Delivered(IDLE, "$" + more)
  {
    hide Delivered, Sentences, Finished, IndexOf;
    var rest := part + "$" + more;
    var stream := noise + "$" + part + "$" + more;
    FramerDeliversSentences(stream);
    FramerDeliversSentences("$" + more);
    IndexOfIs(stream, '$', |noise|);
    assert stream[|noise|..] == "$" + rest;
    SentencesSkip(stream);
    SentencesFromDollar(rest);
    IndexOfIs(rest, '$', |part|);
    assert rest[..|part|] == part && rest[|part|..] == "$" + more;
    Unfinished(part);
  }

  lemma {:induction false} Unfinished(part: string)
    requires HasNone(part, "$\n")
    ensures Finished("$", part) == []
  {
    IndexOfIs(part, '\n', |part|);
  }
}
