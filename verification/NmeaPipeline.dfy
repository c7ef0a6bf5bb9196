/** From the bytes of the daemon's device to satellite reports: framing, tokenizer and satellite view together. */
module NmeaPipeline {
  import opened NmeaFraming
  import opened CommaText
  import NmeaTokens
  import opened SatelliteView

  // ----- the sentences of a stream of batches -----

  // whether the last byte of the batch completes a line
  predicate EndsWithLine(r: Reader, batch: string) {
    batch != [] && Emitted(NmeaFraming.Run(r, batch[..|batch| - 1]), batch[|batch| - 1]) != []
  }

  // only the last line of a batch can end it
  function EventsOfLines(lines: seq<string>, end: bool): seq<Event> {
    if lines == [] then [] else [EventOf(lines[0], end && |lines| == 1)] + EventsOfLines(lines[1..], end)
  }

  function BatchEvents(r: Reader, batch: string): seq<Event> {
    EventsOfLines(Received(r, batch), EndsWithLine(r, batch))
  }

  function StreamEvents(r: Reader, batches: seq<string>): seq<Event>
    decreases |batches|
  {
    if batches == [] then []
    else BatchEvents(r, batches[0]) + StreamEvents(NmeaFraming.Run(r, batches[0]), batches[1..])
  }

  lemma {:induction false} LinesWellFormed(lines: seq<string>, end: bool)
    ensures WellFormed(EventsOfLines(lines, end))
  {
    if lines == [] {
    } else {
      LinesWellFormed(lines[1..], end);
    }
  }

  lemma {:induction false} StreamEventsWellFormed(r: Reader, batches: seq<string>)
    ensures WellFormed(StreamEvents(r, batches))
    decreases |batches|
  {
    if batches == [] {
    } else {
      LinesWellFormed(Received(r, batches[0]), EndsWithLine(r, batches[0]));
      StreamEventsWellFormed(NmeaFraming.Run(r, batches[0]), batches[1..]);
    }
  }

  // ----- batches of whole lines -----

  predicate Short(line: string) {
    '\n' !in line && |line| < NMEA_MAX_SIZE
  }

  predicate AllShort(lines: seq<string>) {
    forall l :: l in lines ==> Short(l)
  }

  function Text(lines: seq<string>): string {
    if lines == [] then [] else (lines[0] + "\n") + Text(lines[1..])
  }

  function Framed(lines: seq<string>): seq<string> {
    seq(|lines|, i requires 0 <= i < |lines| => lines[i] + "\n")
  }

  // a line that fits, in front of any bytes
  lemma {:induction false} LineArrives(line: string, rest: string)
    requires Short(line)
    ensures Received(FRESH, (line + "\n") + rest) == [line + "\n"] + Received(FRESH, rest)
    ensures NmeaFraming.Run(FRESH, (line + "\n") + rest) == NmeaFraming.Run(FRESH, rest)
  {
    OneLine(line);
    RunAppend(FRESH, line + "\n", rest);
  }

  lemma {:induction false} FramedFirst(line: string, rest: seq<string>)
    ensures Framed([line] + rest) == [line + "\n"] + Framed(rest)
  {
  }

  lemma {:induction false} ReceivedOfText(lines: seq<string>)
    requires AllShort(lines)
    ensures Received(FRESH, Text(lines)) == Framed(lines) && NmeaFraming.Run(FRESH, Text(lines)) == FRESH
  {
    if lines == [] {
    } else {
      var first, rest := lines[0], lines[1..];
      assert first in lines && [first] + rest == lines;
      LineArrives(first, Text(rest));
      ReceivedOfText(rest);
      FramedFirst(first, rest);
    }
  }

  // the last byte of a line that fits completes it
  lemma {:induction false} LineEnds(line: string)
    requires Short(line)
    ensures EndsWithLine(FRESH, line + "\n")
  {
    assert (line + "\n")[..|line|] == line;
    NmeaFraming.Gather([], line);
    assert [] + line == line;
  }

  lemma {:induction false} EndsBehindLine(line: string, rest: string)
    requires Short(line) && EndsWithLine(FRESH, rest)
    ensures EndsWithLine(FRESH, (line + "\n") + rest)
  {
    var text, front := (line + "\n") + rest, rest[..|rest| - 1];
    assert text[..|text| - 1] == (line + "\n") + front;
    LineArrives(line, front);
  }

  lemma {:induction false} EndOfText(lines: seq<string>)
    requires AllShort(lines) && lines != []
    ensures EndsWithLine(FRESH, Text(lines))
  {
    var first, rest := lines[0], lines[1..];
    assert first in lines;
    if rest == [] {
      assert Text(lines) == first + "\n";
      LineEnds(first);
    } else {
      EndOfText(rest);
      EndsBehindLine(first, Text(rest));
    }
  }

  function TextEvents(batches: seq<seq<string>>): seq<Event> {
    if batches == [] then [] else EventsOfLines(Framed(batches[0]), true) + TextEvents(batches[1..])
  }

  function BatchTexts(batches: seq<seq<string>>): seq<string> {
    if batches == [] then [] else [Text(batches[0])] + BatchTexts(batches[1..])
  }

  /** Batches of whole lines that fit the buffer reach the parser line by line, each batch ended by its last line. */
  lemma {:induction false} WholeLinesArrive(batches: seq<seq<string>>)
    requires forall b :: b in batches ==> AllShort(b) && b != []
    ensures StreamEvents(FRESH, BatchTexts(batches)) == TextEvents(batches)
  {
    if batches == [] {
    } else {
      assert batches[0] in batches;
      ReceivedOfText(batches[0]);
      EndOfText(batches[0]);
      assert BatchTexts(batches)[1..] == BatchTexts(batches[1..]);
      WholeLinesArrive(batches[1..]);
    }
  }

  // ----- reports -----

  function Start(blank: Sat): SatelliteView.State {
    SatelliteView.State(seq(GNSS_MAX_SVS, _ => blank), 0, 0, {})
  }

  /** From bytes to reports: if the lines of the batches amount to well-formed, in-order GSV groups with reports
      between groups, the reports made of the bytes are the expected lists of satellites. */
  lemma {:induction false} BytesGiveExpectedReports(blank: Sat, batches: seq<seq<string>>, items: seq<Item>)
    requires forall b :: b in batches ==> AllShort(b) && b != []
    requires AllOk(items) && TextEvents(batches) == Stream(items)
    ensures WellFormed(StreamEvents(FRESH, BatchTexts(batches)))
    ensures Show(ReportsOf(Start(blank), StreamEvents(FRESH, BatchTexts(batches))), Expected(Spec([], {}), items))
  {
    WholeLinesArrive(batches);
    ReportsAreExpected(Start(blank), Spec([], {}), items);
  }

  // ----- the reading loop of the HAL thread -----

  function ByteEvents(r: Reader, c: char, last: bool): seq<Event> {
    if Emitted(r, c) == [] then [] else [EventOf(Emitted(r, c)[0], last)]
  }

  // the events of a batch, byte by byte
  function EventsOfBytes(r: Reader, bytes: string): seq<Event>
    decreases |bytes|
  {
    if bytes == [] then []
    else ByteEvents(r, bytes[0], |bytes| == 1) + EventsOfBytes(Next(r, bytes[0]), bytes[1..])
  }

  lemma {:induction false} BytesWellFormed(r: Reader, bytes: string)
    ensures WellFormed(EventsOfBytes(r, bytes))
    decreases |bytes|
  {
    if bytes == [] {
    } else {
      BytesWellFormed(Next(r, bytes[0]), bytes[1..]);
    }
  }

  lemma {:induction false} LastByte(r: Reader, bytes: string)
    requires |bytes| > 1
    ensures EndsWithLine(r, bytes) <==> EndsWithLine(Next(r, bytes[0]), bytes[1..])
  {
    assert bytes[..|bytes| - 1][0] == bytes[0];
    assert bytes[..|bytes| - 1][1..] == bytes[1..][..|bytes| - 2];
  }

  lemma {:induction false} ReceivedLast(r: Reader, bytes: string)
    requires EndsWithLine(r, bytes)
    ensures Received(r, bytes) != []
  {
    var front, last := bytes[..|bytes| - 1], [bytes[|bytes| - 1]];
    RunAppend(r, front, last);
    assert front + last == bytes && last[1..] == [];
  }

  /** Byte by byte or line by line, a batch means the same. */
  lemma {:induction false} BytesAreLines(r: Reader, bytes: string)
    ensures EventsOfBytes(r, bytes) == BatchEvents(r, bytes)
    decreases |bytes|
  {
    if bytes == [] {
    } else if |bytes| == 1 {
      assert bytes[1..] == [] && bytes[..0] == [];
      OneByte(r, bytes[0]);
    } else {
      var r1, rest := Next(r, bytes[0]), bytes[1..];
      BytesAreLines(r1, rest);
      LastByte(r, bytes);
      if EndsWithLine(r, bytes) {
        ReceivedLast(r1, rest);
      }
      LineInFront(Emitted(r, bytes[0]), Received(r1, rest), EndsWithLine(r, bytes));
    }
  }

  lemma {:induction false} OneByte(r: Reader, c: char)
    ensures EventsOfLines(Emitted(r, c), Emitted(r, c) != []) == ByteEvents(r, c, true)
    ensures Received(r, [c]) == Emitted(r, c)
  {
    var lines := Emitted(r, c);
    assert [c][1..] == [];
    if lines == [] {
    } else {
      assert lines[1..] == [];
    }
  }

  lemma {:induction false} LineInFront(first: seq<string>, rest: seq<string>, end: bool)
    requires |first| <= 1 && (end ==> rest != [])
    ensures EventsOfLines(first + rest, end)
         == (if first == [] then [] else [EventOf(first[0], false)]) + EventsOfLines(rest, end)
  {
    if first == [] {
      assert first + rest == rest;
    } else {
      assert (first + rest)[1..] == rest;
    }
  }

  method FeedByte(reader: NmeaReader, sv: SvReader, c: char, last: bool)
    requires reader.Valid() && sv.Valid()
    modifies reader, reader.inb, sv, sv.svList, sv.svUsedInFix
    ensures reader.Valid() && sv.Valid() && reader.View() == Next(old(reader.View()), c)
    ensures var events := ByteEvents(old(reader.View()), c, last);
      && sv.View() == SatelliteView.Run(old(sv.View()), events)
      && sv.reports == old(sv.reports) + ReportsOf(old(sv.View()), events)
  {
    ghost var v := sv.View();
    var parsed := |reader.parsed|;
    reader.AddC(c);
    if |reader.parsed| > parsed {
      sv.ParseLine(reader.parsed[parsed], last);
      OneEvent(v, EventOf(reader.parsed[parsed], last));
    }
  }

  lemma {:induction false} OneEvent(s: SatelliteView.State, e: Event)
    requires Roomy(s) && WellFormed([e])
    ensures e in [e] && SatelliteView.Run(s, [e]) == Cleared(HandleSentence(s, e.x), e.end)
  {
    assert [e][1..] == [];
  }

  // the state and the reports behind the bytes that are left
  ghost predicate Left(r: Reader, v: SatelliteView.State, reports: seq<Report>, bytes: string,
                       r1: Reader, v1: SatelliteView.State, reports1: seq<Report>) {
    && Roomy(v) && WellFormed(EventsOfBytes(r, bytes))
    && NmeaFraming.Run(r, bytes) == r1 && SatelliteView.Run(v, EventsOfBytes(r, bytes)) == v1
    && reports + ReportsOf(v, EventsOfBytes(r, bytes)) == reports1
  }

  lemma {:induction false} OneByteLess(r: Reader, v: SatelliteView.State, reports: seq<Report>, bytes: string,
                                       r1: Reader, v1: SatelliteView.State, reports1: seq<Report>)
    requires bytes != [] && Left(r, v, reports, bytes, r1, v1, reports1)
    ensures var events := ByteEvents(r, bytes[0], |bytes| == 1);
      && WellFormed(events)
      && Left(Next(r, bytes[0]), SatelliteView.Run(v, events), reports + ReportsOf(v, events), bytes[1..],
              r1, v1, reports1)
  {
    var events := ByteEvents(r, bytes[0], |bytes| == 1);
    var rest := EventsOfBytes(Next(r, bytes[0]), bytes[1..]);
    BytesWellFormed(Next(r, bytes[0]), bytes[1..]);
    RunConcat(v, events, rest);
    SatelliteView.Reassociate(reports, ReportsOf(v, events), ReportsOf(SatelliteView.Run(v, events), rest));
  }

  // the bytes of one read
  method FeedBatch(reader: NmeaReader, sv: SvReader, batch: string)
    requires reader.Valid() && sv.Valid()
    modifies reader, reader.inb, sv, sv.svList, sv.svUsedInFix
    ensures reader.Valid() && sv.Valid()
    ensures reader.View() == NmeaFraming.Run(old(reader.View()), batch)
    ensures var events := BatchEvents(old(reader.View()), batch);
      && WellFormed(events) && sv.View() == SatelliteView.Run(old(sv.View()), events)
      && sv.reports == old(sv.reports) + ReportsOf(old(sv.View()), events)
  {
    BytesAreLines(reader.View(), batch);
    BytesWellFormed(reader.View(), batch);
    ghost var events := BatchEvents(reader.View(), batch);
    ghost var r1, v1 := NmeaFraming.Run(reader.View(), batch), SatelliteView.Run(sv.View(), events);
    ghost var reports1 := sv.reports + ReportsOf(sv.View(), events);
    assert batch[0..] == batch;
    for nn := 0 to |batch|
      invariant reader.Valid() && sv.Valid()
      invariant Left(reader.View(), sv.View(), sv.reports, batch[nn..], r1, v1, reports1)
    {
      OneByteLess(reader.View(), sv.View(), sv.reports, batch[nn..], r1, v1, reports1);
      assert batch[nn..][1..] == batch[nn + 1..] && batch[nn..][0] == batch[nn];
      FeedByte(reader, sv, batch[nn], nn == |batch| - 1);
    }
    assert sv.reports + [] == sv.reports;
  }

  lemma {:induction false} FirstBatch(r: Reader, v: SatelliteView.State, batches: seq<string>)
    requires batches != [] && Roomy(v)
    ensures var events := BatchEvents(r, batches[0]);
      var r1 := NmeaFraming.Run(r, batches[0]);
      && WellFormed(events) && WellFormed(StreamEvents(r, batches)) && WellFormed(StreamEvents(r1, batches[1..]))
      && SatelliteView.Run(v, StreamEvents(r, batches))
         == SatelliteView.Run(SatelliteView.Run(v, events), StreamEvents(r1, batches[1..]))
      && ReportsOf(v, StreamEvents(r, batches))
         == ReportsOf(v, events) + ReportsOf(SatelliteView.Run(v, events), StreamEvents(r1, batches[1..]))
  {
    LinesWellFormed(Received(r, batches[0]), EndsWithLine(r, batches[0]));
    StreamEventsWellFormed(NmeaFraming.Run(r, batches[0]), batches[1..]);
    RunConcat(v, BatchEvents(r, batches[0]), StreamEvents(NmeaFraming.Run(r, batches[0]), batches[1..]));
  }

  // the reader behind a stream of batches
  function RunBatches(r: Reader, batches: seq<string>): Reader
    decreases |batches|
  {
    if batches == [] then r else RunBatches(NmeaFraming.Run(r, batches[0]), batches[1..])
  }

  // the state and the reports behind the batches that are left
  ghost predicate BatchesLeft(r: Reader, v: SatelliteView.State, reports: seq<Report>, batches: seq<string>,
                              r1: Reader, v1: SatelliteView.State, reports1: seq<Report>) {
    && Roomy(v) && WellFormed(StreamEvents(r, batches))
    && RunBatches(r, batches) == r1 && SatelliteView.Run(v, StreamEvents(r, batches)) == v1
    && reports + ReportsOf(v, StreamEvents(r, batches)) == reports1
  }

  lemma {:induction false} OneBatchLess(r: Reader, v: SatelliteView.State, reports: seq<Report>, batches: seq<string>,
                                        r1: Reader, v1: SatelliteView.State, reports1: seq<Report>)
    requires batches != [] && BatchesLeft(r, v, reports, batches, r1, v1, reports1)
    ensures var events := BatchEvents(r, batches[0]);
      && WellFormed(events)
      && BatchesLeft(NmeaFraming.Run(r, batches[0]), SatelliteView.Run(v, events), reports + ReportsOf(v, events),
                     batches[1..], r1, v1, reports1)
  {
    var events := BatchEvents(r, batches[0]);
    FirstBatch(r, v, batches);
    SatelliteView.Reassociate(reports, ReportsOf(v, events),
                              ReportsOf(SatelliteView.Run(v, events),
                                        StreamEvents(NmeaFraming.Run(r, batches[0]), batches[1..])));
  }

  /** The reads of one wake-up, in whatever batches the bytes come: the reports are those of the lines the framing
      keeps, read as the tokenizer reads them. */
  method ReadBatches(reader: NmeaReader, sv: SvReader, batches: seq<string>)
    requires reader.Valid() && sv.Valid()
    modifies reader, reader.inb, sv, sv.svList, sv.svUsedInFix
    ensures reader.Valid() && sv.Valid() && reader.View() == RunBatches(old(reader.View()), batches)
    ensures var events := StreamEvents(old(reader.View()), batches);
      && WellFormed(events) && sv.View() == SatelliteView.Run(old(sv.View()), events)
      && sv.reports == old(sv.reports) + ReportsOf(old(sv.View()), events)
  {
    StreamEventsWellFormed(reader.View(), batches);
    ghost var events := StreamEvents(reader.View(), batches);
    ghost var r1, v1 := RunBatches(reader.View(), batches), SatelliteView.Run(sv.View(), events);
    ghost var reports1 := sv.reports + ReportsOf(sv.View(), events);
    assert batches[0..] == batches;
    for n := 0 to |batches|
      invariant reader.Valid() && sv.Valid()
      invariant BatchesLeft(reader.View(), sv.View(), sv.reports, batches[n..], r1, v1, reports1)
    {
      OneBatchLess(reader.View(), sv.View(), sv.reports, batches[n..], r1, v1, reports1);
      assert batches[n..][1..] == batches[n + 1..] && batches[n..][0] == batches[n];
      FeedBatch(reader, sv, batches[n]);
    }
    assert sv.reports + [] == sv.reports;
  }
}
