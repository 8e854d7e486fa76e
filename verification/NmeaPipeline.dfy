/** The bounded queue between the GPS task and the logger, under every interleaving of the two,
    and the way of a sentence from the GPS bytes to the router's datagrams. */
module NmeaPipeline {
  import opened NmeaFramer
  import opened LogRouter

  const QUEUE_DEPTH := 10
  const TRAILER := "\n" + Line('=', 60) + "\n\n"

  function Line(c: char, n: nat): (s: string)
    ensures forall i :: 0 <= i < |s| ==> s[i] == c
  {
    seq(n, _ => c)
  }

  // ---- The tasks' code on its own

  /** The queue of the operating system, with the two calls the tasks make. */
  class NmeaQueue {
    var items: seq<string>

    ghost predicate Valid()
      reads this
    {
      |items| <= QUEUE_DEPTH
    }

    constructor ()
      ensures Valid() && items == []
    {
      items := [];
    }

    /** xQueueSendToBack without waiting. */
    method SendToBack(sentence: string) returns (sent: bool)
      requires Valid()
      modifies this
      ensures Valid() && sent == (|old(items)| < 10)
      ensures items == if sent then old(items) + [sentence] else old(items)
    {
      sent := |items| < QUEUE_DEPTH;
      if sent {
        items := items + [sentence];
      }
    }

    /** xQueueReceive without waiting. */
    method Receive() returns (received: seq<string>)
      requires Valid()
      modifies this
      ensures Valid() && received + items == old(items)
      ensures |received| == if old(items) == [] then 0 else 1
    {
      if items == [] {
        return [];
      }
      received := [items[0]];
      items := items[1..];
    }
  }

  /** The part of consume_sentence that feeds the queue. */
  method ConsumeSentence(check: string -> bool, queue: NmeaQueue, sentence: string)
    requires queue.Valid()
    modifies queue
    ensures queue.Valid()
    ensures queue.items == if check(sentence) && |old(queue.items)| < QUEUE_DEPTH
                           then old(queue.items) + [sentence] else old(queue.items)
  {
    if check(sentence) {
      var _ := queue.SendToBack(sentence);
    }
  }

  class Logger {
    const logToUsb: bool
    const queue: NmeaQueue
    const nmeaSentences: array<string>
    var nmeaSentenceCount: nat

    ghost predicate Valid()
      reads this, queue, nmeaSentences
    {
      queue.Valid() && nmeaSentences.Length == QUEUE_DEPTH && nmeaSentenceCount <= QUEUE_DEPTH
    }

    ghost function Held(): seq<string>
      requires Valid()
      reads this, queue, nmeaSentences
    {
      nmeaSentences[..nmeaSentenceCount]
    }

    constructor (queue: NmeaQueue, logToUsb: bool)
      requires queue.Valid()
      ensures Valid() && this.queue == queue && this.logToUsb == logToUsb
      ensures Held() == [] && fresh(this) && fresh(nmeaSentences)
    {
      this.queue, this.logToUsb := queue, logToUsb;
      nmeaSentences := new string[QUEUE_DEPTH](_ => "");
      nmeaSentenceCount := 0;
    }

    /** Undisturbed by the GPS task, one round empties the queue in order. */
    method ReadQueues()
      requires Valid()
      modifies this, queue, nmeaSentences
      ensures Valid() && Held() == old(queue.items) && queue.items == []
    {
      nmeaSentenceCount := 0;
      var more := true;
      while nmeaSentenceCount < QUEUE_DEPTH && more
        invariant Valid() && Held() + queue.items == old(queue.items)
        invariant !more ==> queue.items == []
        decreases QUEUE_DEPTH - nmeaSentenceCount, more
      {
        var received := queue.Receive();
        if received == [] {
          more := false;
        } else {
          nmeaSentences[nmeaSentenceCount] := received[0];
          nmeaSentenceCount := nmeaSentenceCount + 1;
        }
      }
    }

    /** The text of one round; status are the lines about sources and performance. */
    method Log(status: string) returns (text: string)
      requires Valid()
      ensures text == if logToUsb then LogText(status, Held()) else ""
    {
      if !logToUsb {
        return "";
      }
      text := status;
      for i := 0 to nmeaSentenceCount
        invariant text == status + TaggedLines(nmeaSentences[..i])
      {
        assert nmeaSentences[..i + 1][..i] == nmeaSentences[..i];
        text := text + (PREFIX + nmeaSentences[i] + "\r\n");
      }
      text := text + TRAILER;
    }

    /** One round of the logging task: what was queued is printed, unless logging is switched off. */
    method Round(status: string) returns (text: string)
      requires Valid()
      modifies this, queue, nmeaSentences
      ensures Valid() && queue.items == []
      ensures text == if logToUsb then LogText(status, old(queue.items)) else ""
    {
      ReadQueues();
      text := Log(status);
    }
  }

  function TaggedLines(sentences: seq<string>): string {
    if sentences == [] then ""
    else TaggedLines(sentences[..|sentences| - 1]) + (PREFIX + sentences[|sentences| - 1] + "\r\n")
  }

  function LogText(status: string, held: seq<string>): string {
    status + TaggedLines(held) + TRAILER
  }

  /** Every held sentence is a line of its own, before a rule of sixty signs. */
  lemma {:induction false} PrintedText(status: string, held: seq<string>, s: string)
    ensures LogText(status, []) == status + ("\n" + seq(60, _ => '=') + "\n\n")
    ensures TaggedLines([]) == "" && TaggedLines(held + [s]) == TaggedLines(held) + ("@NMEA " + s + "\r\n")
    ensures LogText(status, held) == status + TaggedLines(held) + ("\n" + seq(60, _ => '=') + "\n\n")
  {
    assert (held + [s])[..|held|] == held;
    assert Line('=', 60) == seq(60, _ => '=');
    assert status + "" == status;
  }

  // ---- Both tasks together

  datatype Phase = Reading | Printing(next: nat)

  // waiting is the length of the queue that the offered sentence met.
  datatype Offer = Offer(sentence: string, waiting: nat)

  datatype Pipe = Pipe(framer: Framer, queue: seq<string>, held: seq<string>, phase: Phase,
                       offers: seq<Offer>, printed: seq<string>, serial: string)

  const START := Pipe(IDLE, [], [], Reading, [], [], "")

  // One atomic step of either task: the GPS task consumes a byte, or the logger moves on;
  // status is what the logger prints before the sentences.
  datatype Event = GpsByte(byte: char) | LoggerMoves(status: string)

  function Act(check: string -> bool, p: Pipe, e: Event): Pipe {
    match e
    case GpsByte(byte) =>
      var (framer, delivered) := Consume(p.framer, byte);
      OfferChecked(check, p.(framer := framer), delivered)
    case LoggerMoves(status) => Move(p, status)
  }

  /** consume_sentence, if a sentence was completed. */
  function OfferChecked(check: string -> bool, p: Pipe, delivered: seq<string>): Pipe {
    if delivered != [] && check(delivered[0]) then Enqueue(p, delivered[0]) else p
  }

  function Enqueue(p: Pipe, s: string): Pipe {
    p.(queue := if |p.queue| < QUEUE_DEPTH then p.queue + [s] else p.queue,
       offers := p.offers + [Offer(s, |p.queue|)])
  }

  function Move(p: Pipe, status: string): Pipe {
    match p.phase
    case Reading =>
      if |p.held| < QUEUE_DEPTH && p.queue != [] then p.(held := p.held + [p.queue[0]], queue := p.queue[1..])
      else p.(phase := Printing(0), serial := p.serial + status)
    case Printing(i) =>
      if i < |p.held| then
        p.(printed := p.printed + [p.held[i]], phase := Printing(i + 1),
           serial := p.serial + (PREFIX + p.held[i] + "\r\n"))
      else p.(held := [], phase := Reading, serial := p.serial + TRAILER)
  }

  /** The code of the GPS task does this step to its buffer and the queue. */
  method ConsumeGpsByte(check: string -> bool, buffer: SentenceBuffer, queue: NmeaQueue, byte: char, ghost p: Pipe)
    requires buffer.Valid() && queue.Valid()
    requires p.framer == buffer.Model() && p.queue == queue.items
    modifies buffer, buffer.sentence, queue
    ensures buffer.Valid() && queue.Valid()
    ensures buffer.Model() == Act(check, p, GpsByte(byte)).framer
    ensures queue.items == Act(check, p, GpsByte(byte)).queue
  {
    hide Consume;
    var delivered := buffer.ConsumeByte(byte);
    if delivered != [] {
      ConsumeSentence(check, queue, delivered[0]);
    }
  }

  function Interleaved(check: string -> bool, schedule: seq<Event>): Pipe {
    if schedule == [] then START
    else Act(check, Interleaved(check, schedule[..|schedule| - 1]), schedule[|schedule| - 1])
  }

  /** The bytes that the GPS task consumed. */
  function Bytes(schedule: seq<Event>): string {
    if schedule == [] then ""
    else
      var last := schedule[|schedule| - 1];
      Bytes(schedule[..|schedule| - 1]) + if last.GpsByte? then [last.byte] else ""
  }

  // ---- A round of the logger that the GPS task does not disturb

  function Moves(p: Pipe, status: string, n: nat): Pipe {
    if n == 0 then p else Move(Moves(p, status, n - 1), status)
  }

  /** It does what the logger's code does: the queue is emptied and its text is printed. */
  lemma {:induction false} UndisturbedRound(p: Pipe, status: string)
    requires p.phase.Reading? && p.held == [] && |p.queue| <= QUEUE_DEPTH
    ensures Moves(p, status, |p.queue| + 1 + |p.queue| + 1)
         == p.(queue := [], printed := p.printed + p.queue, serial := p.serial + LogText(status, p.queue))
  {
    hide Move, Moves;
    var n := |p.queue|;
    var read := p.(held := p.queue, queue := []);
    var begun := read.(phase := Printing(0), serial := p.serial + status);
    ReadsPrefix(p, status, n);
    assert p.queue[..n] == p.queue && p.queue[n..] == [];
    EndsReading(read, status);
    NextMove(p, status, n);
    PrintsPrefix(begun, status, n);
    MovesOn(p, status, n + 1, n);
    NextMove(p, status, n + 1 + n);
    EndsPrinting(Moves(begun, status, n), status);
    assert p.serial + status + TaggedLines(p.queue) + TRAILER == p.serial + LogText(status, p.queue);
  }

  lemma {:induction false} NextMove(p: Pipe, status: string, n: nat)
    ensures Moves(p, status, n + 1) == Move(Moves(p, status, n), status)
  {
    hide Move;
  }

  lemma {:induction false} MovesOn(p: Pipe, status: string, a: nat, b: nat)
    ensures Moves(p, status, a + b) == Moves(Moves(p, status, a), status, b)
  {
    hide Move;
    if b > 0 {
      MovesOn(p, status, a, b - 1);
    }
  }

  lemma {:induction false} ReadsPrefix(p: Pipe, status: string, k: nat)
    requires p.phase.Reading? && p.held == [] && k <= |p.queue| <= QUEUE_DEPTH
    ensures Moves(p, status, k) == p.(held := p.queue[..k], queue := p.queue[k..])
  {
    if k > 0 {
      ReadsPrefix(p, status, k - 1);
      assert p.queue[k - 1..][1..] == p.queue[k..];
      assert p.queue[..k - 1] + [p.queue[k - 1..][0]] == p.queue[..k];
    }
  }

  lemma {:induction false} EndsReading(p: Pipe, status: string)
    requires p.phase.Reading? && p.queue == []
    ensures Move(p, status) == p.(phase := Printing(0), serial := p.serial + status)
  {
  }

  lemma {:induction false} PrintsPrefix(p: Pipe, status: string, k: nat)
    requires p.phase == Printing(0) && k <= |p.held|
    ensures Moves(p, status, k) == p.(phase := Printing(k), printed := p.printed + p.held[..k],
                                      serial := p.serial + TaggedLines(p.held[..k]))
  {
    if k > 0 {
      PrintsPrefix(p, status, k - 1);
      assert p.held[..k][..k - 1] == p.held[..k - 1];
      assert p.printed + p.held[..k - 1] + [p.held[k - 1]] == p.printed + p.held[..k];
      var line := PREFIX + p.held[k - 1] + "\r\n";
      assert p.serial + TaggedLines(p.held[..k - 1]) + line == p.serial + (TaggedLines(p.held[..k - 1]) + line);
    } else {
      assert p.held[..0] == [] && p.printed + [] == p.printed && p.serial + "" == p.serial;
    }
  }

  lemma {:induction false} EndsPrinting(p: Pipe, status: string)
    requires p.phase == Printing(|p.held|)
    ensures Move(p, status) == p.(held := [], phase := Reading, serial := p.serial + TRAILER)
  {
  }

  // ---- Nothing else is lost

  /** The offers that met a queue with room. */
  function Taken(offers: seq<Offer>): seq<string> {
    if offers == [] then []
    else
      var last := offers[|offers| - 1];
      Taken(offers[..|offers| - 1]) + if last.waiting < QUEUE_DEPTH then [last.sentence] else []
  }

  /** The sentences read but not yet printed. */
  function Unprinted(p: Pipe): seq<string> {
    if p.phase.Printing? && p.phase.next <= |p.held| then p.held[p.phase.next..] else p.held
  }

  ghost predicate PipeInvariant(p: Pipe) {
    && |p.queue| <= QUEUE_DEPTH && |p.held| <= QUEUE_DEPTH
    && (p.phase.Printing? ==> p.phase.next <= |p.held|)
    && Taken(p.offers) == p.printed + Unprinted(p) + p.queue
    && (forall i :: 0 <= i < |p.offers| ==> p.offers[i].waiting <= QUEUE_DEPTH)
  }

  /** Under every interleaving, what was printed, then what is held, then what is queued are the
      offered sentences in order, each once, without those that met a full queue. */
  lemma {:induction false} NothingElseIsLost(check: string -> bool, schedule: seq<Event>)
    ensures PipeInvariant(Interleaved(check, schedule))
  {
    hide Act, PipeInvariant;
    if schedule == [] {
      StartIsFine();
    } else {
      var front := schedule[..|schedule| - 1];
      NothingElseIsLost(check, front);
      ActKeepsInvariant(check, Interleaved(check, front), schedule[|schedule| - 1]);
    }
  }

  lemma {:induction false} StartIsFine()
    ensures PipeInvariant(START)
  {
  }

  lemma {:induction false} ActKeepsInvariant(check: string -> bool, p: Pipe, e: Event)
    requires PipeInvariant(p)
    ensures PipeInvariant(Act(check, p, e))
  {
    hide PipeInvariant, Move, Enqueue, Consume;
    match e
    case GpsByte(byte) =>
      var (framer, delivered) := Consume(p.framer, byte);
      FramerIsApart(p, framer);
      if delivered != [] {
        OfferKeepsInvariant(p.(framer := framer), delivered[0]);
      }
    case LoggerMoves(status) =>
      if p.phase.Reading? {
        ReadKeepsInvariant(p, status);
      } else {
        PrintKeepsInvariant(p, status);
      }
  }

  lemma {:induction false} FramerIsApart(p: Pipe, framer: Framer)
    requires PipeInvariant(p)
    ensures PipeInvariant(p.(framer := framer))
  {
    hide Taken;
  }

  lemma {:induction false} OfferKeepsInvariant(p: Pipe, s: string)
    requires PipeInvariant(p)
    ensures PipeInvariant(Enqueue(p, s))
  {
    hide Taken;
    TakenSnoc(p.offers, Offer(s, |p.queue|));
    assert p.printed + Unprinted(p) + (p.queue + [s]) == p.printed + Unprinted(p) + p.queue + [s];
    assert p.printed + Unprinted(p) + p.queue + [] == p.printed + Unprinted(p) + p.queue;
  }

  lemma {:induction false} ReadKeepsInvariant(p: Pipe, status: string)
    requires PipeInvariant(p) && p.phase.Reading?
    ensures PipeInvariant(Move(p, status))
  {
    hide Taken;
    if |p.held| < QUEUE_DEPTH && p.queue != [] {
      assert p.printed + p.held + p.queue == p.printed + (p.held + [p.queue[0]]) + p.queue[1..];
    } else {
      assert p.held[0..] == p.held;
    }
  }

  lemma {:induction false} PrintKeepsInvariant(p: Pipe, status: string)
    requires PipeInvariant(p) && p.phase.Printing?
    ensures PipeInvariant(Move(p, status))
  {
    hide Taken;
    var i := p.phase.next;
    if i < |p.held| {
      assert p.printed + p.held[i..] + p.queue == (p.printed + [p.held[i]]) + p.held[i + 1..] + p.queue;
    } else {
      assert p.held[i..] == [];
    }
  }

  /** Only an offer that met ten waiting sentences is lost. */
  lemma {:induction false} TakenSnoc(offers: seq<Offer>, o: Offer)
    ensures Taken(offers + [o]) == Taken(offers) + if o.waiting < 10 then [o.sentence] else []
  {
    assert (offers + [o])[..|offers|] == offers;
  }

  // ---- The serial text and the router

  ghost predicate Routable(s: string) {
    && s != "" && s[0] == '$' && '\r' !in s && '\n' !in s
    && !IsPadding(s[|s| - 1]) && IndexOf(s, '*') + 3 >= |s|
  }

  ghost predicate QuietSchedule(schedule: seq<Event>) {
    forall i :: 0 <= i < |schedule| && schedule[i].LoggerMoves? ==> Quiet(schedule[i].status)
  }

  function OfferedSentences(offers: seq<Offer>): (r: seq<string>)
    ensures |r| == |offers|
  {
    seq(|offers|, i requires 0 <= i < |offers| => offers[i].sentence)
  }

  ghost predicate RoutableOffers(p: Pipe) {
    forall i :: 0 <= i < |p.offers| ==> Routable(p.offers[i].sentence)
  }

  function Closed(sentences: seq<string>): (r: seq<string>)
    ensures |r| == |sentences|
  {
    seq(|sentences|, i requires 0 <= i < |sentences| => sentences[i] + "\r\n")
  }

  ghost predicate AllRoutable(sentences: seq<string>) {
    forall s :: s in sentences ==> Routable(s)
  }

  /** Whatever follows, the text so far is worth exactly the printed sentences. */
  ghost predicate SerialWorth(p: Pipe) {
    && AllRoutable(p.held) && AllRoutable(p.queue)
    && forall more :: Datagrams(p.serial + more) == Closed(p.printed) + Datagrams(more)
  }

  /** The router sends exactly the printed sentences, in order, whatever the interleaving. */
  lemma {:induction false} RouterSendsPrinted(check: string -> bool, schedule: seq<Event>)
    requires QuietSchedule(schedule) && RoutableOffers(Interleaved(check, schedule))
    ensures Datagrams(Interleaved(check, schedule).serial) == Closed(Interleaved(check, schedule).printed)
  {
    hide Datagrams, Closed, Interleaved, RoutableOffers, QuietSchedule;
    SerialIsWorthPrinted(check, schedule);
    var p := Interleaved(check, schedule);
    assert p.serial + "" == p.serial;
    NothingSent();
  }

  lemma {:induction false} SerialIsWorthPrinted(check: string -> bool, schedule: seq<Event>)
    requires QuietSchedule(schedule) && RoutableOffers(Interleaved(check, schedule))
    ensures SerialWorth(Interleaved(check, schedule))
  {
    hide Act, SerialWorth, Quiet, RoutableOffers;
    if schedule == [] {
      StartIsWorthNothing();
    } else {
      var front, last := schedule[..|schedule| - 1], schedule[|schedule| - 1];
      ActOnlyOffers(check, Interleaved(check, front), last);
      SerialIsWorthPrinted(check, front);
      ActKeepsWorth(check, Interleaved(check, front), last);
    }
  }

  lemma {:induction false} ActOnlyOffers(check: string -> bool, p: Pipe, e: Event)
    requires RoutableOffers(Act(check, p, e))
    ensures RoutableOffers(p)
  {
    hide Routable, Consume;
    assert p.offers <= Act(check, p, e).offers;
  }

  lemma {:induction false} StartIsWorthNothing()
    ensures SerialWorth(START)
  {
    hide Datagrams;
    forall more: string
      ensures "" + more == more
    {
    }
  }

  lemma {:induction false} ActKeepsWorth(check: string -> bool, p: Pipe, e: Event)
    requires SerialWorth(p) && RoutableOffers(Act(check, p, e))
    requires e.LoggerMoves? ==> Quiet(e.status)
    ensures SerialWorth(Act(check, p, e))
  {
    hide SerialWorth, RoutableOffers, Quiet, Move, Enqueue, Consume;
    match e
    case GpsByte(byte) =>
      var (framer, delivered) := Consume(p.framer, byte);
      WorthIgnoresFramer(p, framer);
      if delivered != [] && check(delivered[0]) {
        OfferKeepsWorth(p.(framer := framer), delivered[0]);
      }
    case LoggerMoves(status) => MoveKeepsWorth(p, status);
  }

  lemma {:induction false} WorthIgnoresFramer(p: Pipe, framer: Framer)
    requires SerialWorth(p)
    ensures SerialWorth(p.(framer := framer))
  {
    hide Datagrams, Routable, Closed;
  }

  lemma {:induction false} OfferKeepsWorth(p: Pipe, s: string)
    requires SerialWorth(p) && RoutableOffers(Enqueue(p, s))
    ensures SerialWorth(Enqueue(p, s))
  {
    hide Datagrams, Routable, Closed;
    assert Enqueue(p, s).offers[|p.offers|].sentence == s;
  }

  lemma {:induction false} MoveKeepsWorth(p: Pipe, status: string)
    requires SerialWorth(p) && Quiet(status)
    ensures SerialWorth(Move(p, status))
  {
    hide Datagrams, Routable, Quiet, Closed;
    match p.phase
    case Reading =>
      AppendQuiet(p, status);
    case Printing(i) =>
      if i < |p.held| {
        AppendSentence(p, p.held[i]);
      } else {
        TrailerIsQuiet();
        AppendQuiet(p, TRAILER);
      }
  }

  lemma {:induction false} AppendQuiet(p: Pipe, text: string)
    requires SerialWorth(p) && Quiet(text)
    ensures forall more :: Datagrams(p.serial + text + more) == Closed(p.printed) + Datagrams(more)
  {
    hide Datagrams, Closed, Quiet;
    forall more: string
      ensures Datagrams(p.serial + text + more) == Closed(p.printed) + Datagrams(more)
    {
      assert p.serial + text + more == p.serial + (text + more);
      QuietTextIsSkipped(text, more);
    }
  }

  lemma {:induction false} AppendSentence(p: Pipe, s: string)
    requires SerialWorth(p) && Routable(s)
    ensures forall more :: Datagrams(p.serial + (PREFIX + s + "\r\n") + more) == Closed(p.printed + [s]) + Datagrams(more)
  {
    hide Datagrams;
    forall more: string
      ensures Datagrams(p.serial + (PREFIX + s + "\r\n") + more) == Closed(p.printed + [s]) + Datagrams(more)
    {
      assert p.serial + (PREFIX + s + "\r\n") + more == p.serial + (PREFIX + s + "\r\n" + more);
      PrintedLineIsRecovered(s, more);
      assert Closed(p.printed + [s]) == Closed(p.printed) + [s + "\r\n"];
    }
  }

  /** One undisturbed round of the logger is worth exactly the sentences it held. */
  lemma {:induction false} RoundIsRouted(status: string, held: seq<string>, more: string)
    requires Quiet(status) && AllRoutable(held)
    ensures Datagrams(LogText(status, held) + more) == Closed(held) + Datagrams(more)
  {
    hide Datagrams, Quiet, Closed, Routable;
    assert LogText(status, held) + more == status + (TaggedLines(held) + (TRAILER + more));
    QuietTextIsSkipped(status, TaggedLines(held) + (TRAILER + more));
    LinesAreRouted(held, TRAILER + more);
    TrailerIsQuiet();
    QuietTextIsSkipped(TRAILER, more);
  }

  lemma {:induction false} LinesAreRouted(held: seq<string>, more: string)
    requires AllRoutable(held)
    ensures Datagrams(TaggedLines(held) + more) == Closed(held) + Datagrams(more)
  {
    hide Datagrams, Routable;
    if held == [] {
      assert "" + more == more;
    } else {
      var front, last := held[..|held| - 1], held[|held| - 1];
      assert TaggedLines(held) + more == TaggedLines(front) + (PREFIX + last + "\r\n" + more);
      LinesAreRouted(front, PREFIX + last + "\r\n" + more);
      RoutableLine(last, more);
      assert Closed(held) == Closed(front) + [last + "\r\n"];
    }
  }

  lemma {:induction false} RoutableLine(s: string, more: string)
    requires Routable(s)
    ensures Datagrams(PREFIX + s + "\r\n" + more) == [s + "\r\n"] + Datagrams(more)
  {
    PrintedLineIsRecovered(s, more);
  }

  lemma {:induction false} TrailerIsQuiet()
    ensures Quiet(TRAILER)
  {
    hide Find;
    RuleIsUntagged(Line('=', 60));
  }

  lemma {:induction false} RuleIsUntagged(rule: string)
    requires '@' !in rule && '\r' !in rule
    ensures Quiet("\n" + rule + "\n\n")
  {
    hide Find;
    TagHasAt("\n" + rule + "\n\n");
  }

  lemma {:induction false} TagHasAt(s: string)
    ensures Find(s, PREFIX) >= 0 ==> '@' in s
  {
    var i := Find(s, PREFIX);
    if i >= 0 {
      assert s[i..i + |PREFIX|][0] == s[i];
    }
  }

  // ---- From the GPS bytes to the datagrams

  predicate IsHexDigit(c: char) {
    '0' <= c <= '9' || 'A' <= c <= 'F' || 'a' <= c <= 'f'
  }

  /** The strict check demands a checksum: the only star, and two hexadecimal digits, at the end. */
  ghost predicate DemandsChecksum(check: string -> bool) {
    forall s :: check(s) ==>
      |s| >= 4 && IndexOf(s, '*') == |s| - 3 && IsHexDigit(s[|s| - 2]) && IsHexDigit(s[|s| - 1])
  }

  function Checked(check: string -> bool, sentences: seq<string>): seq<string> {
    if sentences == [] then []
    else
      var last := sentences[|sentences| - 1];
      Checked(check, sentences[..|sentences| - 1]) + if check(last) then [last] else []
  }

  /** What the GPS task offers are the checked ones of the sentences the framer delivers. */
  lemma {:induction false} OffersAreDelivered(check: string -> bool, schedule: seq<Event>)
    ensures var p := Interleaved(check, schedule);
            && p.framer == After(IDLE, Bytes(schedule))
            && OfferedSentences(p.offers) == Checked(check, Delivered(IDLE, Bytes(schedule)))
  {
    hide Act, Delivered, After, Checked;
    if schedule == [] {
      NothingDelivered(check);
    } else {
      var front, last := schedule[..|schedule| - 1], schedule[|schedule| - 1];
      OffersAreDelivered(check, front);
      var p := Interleaved(check, front);
      match last
      case GpsByte(byte) =>
        Chunks(IDLE, Bytes(front), [byte]);
        OneByte(p.framer, byte);
        ByteOffers(check, p, byte);
        CheckedSnoc(check, Delivered(IDLE, Bytes(front)), Consume(p.framer, byte).1);
      case LoggerMoves(status) =>
        assert Bytes(schedule) == Bytes(front);
        MoveOffersNothing(check, p, status);
    }
  }

  lemma {:induction false} NothingDelivered(check: string -> bool)
    ensures After(IDLE, "") == IDLE && Checked(check, Delivered(IDLE, "")) == []
  {
  }

  lemma {:induction false} ByteOffers(check: string -> bool, p: Pipe, byte: char)
    ensures var (framer, delivered) := Consume(p.framer, byte);
            var after := Act(check, p, GpsByte(byte));
            && |delivered| <= 1 && after.framer == framer
            && OfferedSentences(after.offers) == OfferedSentences(p.offers) + Checked(check, delivered)
  {
  }

  lemma {:induction false} MoveOffersNothing(check: string -> bool, p: Pipe, status: string)
    ensures var after := Act(check, p, LoggerMoves(status));
            after.framer == p.framer && after.offers == p.offers
  {
  }

  lemma {:induction false} CheckedSnoc(check: string -> bool, a: seq<string>, d: seq<string>)
    requires |d| <= 1
    ensures Checked(check, a + d) == Checked(check, a) + Checked(check, d)
  {
    if d == [] {
      assert a + d == a;
    } else {
      assert (a + d)[..|a|] == a && d[..0] == [];
    }
  }

  /** For every byte stream and every interleaving of its bytes with the steps of the logger: the
      queue is offered the checked sentences of the stream, of them only those that met a full
      queue are lost, and the router sends the rest in order as far as it was printed. */
  lemma {:induction false} BytesToDatagrams(check: string -> bool, schedule: seq<Event>)
    requires DemandsChecksum(check) && QuietSchedule(schedule)
    ensures var p := Interleaved(check, schedule);
            && OfferedSentences(p.offers) == Checked(check, Sentences(Bytes(schedule)))
            && Taken(p.offers) == p.printed + Unprinted(p) + p.queue
            && (forall i :: 0 <= i < |p.offers| ==> p.offers[i].waiting <= 10)
            && Datagrams(p.serial) == Closed(p.printed)
  {
    hide Interleaved, Sentences, Datagrams, Closed, Taken, Delivered, QuietSchedule, Checked, Bytes, RoutableOffers;
    FramerDeliversSentences(Bytes(schedule));
    OffersAreDelivered(check, schedule);
    NothingElseIsLost(check, schedule);
    SentencesWellFramed(Bytes(schedule));
    CheckedAreRoutable(check, Sentences(Bytes(schedule)));
    OffersAreRoutable(Interleaved(check, schedule));
    RouterSendsPrinted(check, schedule);
  }

  lemma {:induction false} OffersAreRoutable(p: Pipe)
    requires AllRoutable(OfferedSentences(p.offers))
    ensures RoutableOffers(p)
  {
    hide Routable;
    assert forall i :: 0 <= i < |p.offers| ==> p.offers[i].sentence == OfferedSentences(p.offers)[i];
  }

  lemma {:induction false} CheckedAreRoutable(check: string -> bool, sentences: seq<string>)
    requires DemandsChecksum(check) && AllWellFramed(sentences)
    ensures AllRoutable(Checked(check, sentences))
  {
    hide Routable, WellFramed;
    if sentences != [] {
      var last := sentences[|sentences| - 1];
      CheckedAreRoutable(check, sentences[..|sentences| - 1]);
      if check(last) {
        FramedAndChecked(check, last);
      }
    }
  }

  lemma {:induction false} FramedAndChecked(check: string -> bool, s: string)
    requires DemandsChecksum(check) && check(s) && WellFramed(s)
    ensures Routable(s)
  {
    assert s == [s[0]] + s[1..];
  }
}
