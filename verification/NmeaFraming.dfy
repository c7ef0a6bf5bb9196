/** Byte-by-byte assembly of NMEA sentences, and the line splitter it amounts to. */
module NmeaFraming {

  const NMEA_MAX_SIZE := 128

  // ----- one byte at a time -----

  // the bytes gathered so far (never a newline among them), and the skip-to-newline flag
  datatype Reader = Reader(held: string, overflow: bool)

  const FRESH := Reader([], false)
  const SKIPPING := Reader([], true)

  function Next(r: Reader, c: char): Reader {
    if r.overflow then Reader(r.held, c != '\n')
    else if |r.held| >= NMEA_MAX_SIZE then SKIPPING
    else if c == '\n' then FRESH
    else Reader(r.held + [c], false)
  }

  // what the parser is called with because of this byte
  function Emitted(r: Reader, c: char): seq<string> {
    if !r.overflow && |r.held| < NMEA_MAX_SIZE && c == '\n' then [r.held + [c]] else []
  }

  function Run(r: Reader, stream: string): Reader
    decreases |stream|
  {
    if stream == [] then r else Run(Next(r, stream[0]), stream[1..])
  }

  function Received(r: Reader, stream: string): seq<string>
    decreases |stream|
  {
    if stream == [] then [] else Emitted(r, stream[0]) + Received(Next(r, stream[0]), stream[1..])
  }

  // ----- line by line -----

  function FirstNewline(s: string): (k: nat)
    requires '\n' in s
    ensures k < |s| && s[k] == '\n' && '\n' !in s[..k]
  {
    if s[0] == '\n' then 0 else
      var k := 1 + FirstNewline(s[1..]);
      assert s[..k] == [s[0]] + s[1..][..k - 1];
      k
  }

  // the complete lines of a stream, without their newlines
  function Lines(s: string): seq<string>
    decreases |s|
  {
    if '\n' !in s then [] else
      var k := FirstNewline(s);
      [s[..k]] + Lines(s[k + 1..])
  }

  // lines of at most 127 bytes are kept with their newline; a line of exactly 128 bytes takes the next line
  // down with it, because its newline is the byte that finds the buffer full
  function Kept(lines: seq<string>): seq<string> {
    if lines == [] then []
    else if |lines[0]| < NMEA_MAX_SIZE then [lines[0] + "\n"] + Kept(lines[1..])
    else if |lines[0]| == NMEA_MAX_SIZE && |lines| > 1 then Kept(lines[2..])
    else Kept(lines[1..])
  }

  // ----- the refinement -----

  lemma {:induction false} RunAppend(r: Reader, a: string, b: string)
    ensures Run(r, a + b) == Run(Run(r, a), b)
    ensures Received(r, a + b) == Received(r, a) + Received(Run(r, a), b)
    decreases |a|
  {
    if a == [] {
      assert a + b == b;
    } else {
      assert (a + b)[1..] == a[1..] + b;
      RunAppend(Next(r, a[0]), a[1..], b);
    }
  }

  lemma {:induction false} Gather(held: string, w: string)
    requires '\n' !in w && |held| + |w| <= NMEA_MAX_SIZE
    ensures Run(Reader(held, false), w) == Reader(held + w, false)
    ensures Received(Reader(held, false), w) == []
    decreases |w|
  {
    if w == [] {
      assert held + w == held;
    } else {
      assert w[0] in w && held + [w[0]] + w[1..] == held + w;
      Gather(held + [w[0]], w[1..]);
    }
  }

  lemma {:induction false} Skip(w: string)
    requires '\n' !in w
    ensures Run(SKIPPING, w) == SKIPPING && Received(SKIPPING, w) == []
    decreases |w|
  {
    if w == [] {
    } else {
      assert w[0] in w;
      Skip(w[1..]);
    }
  }

  // one whole line, fed to a reader that holds nothing
  lemma {:induction false} OneLine(w: string)
    requires '\n' !in w
    ensures Received(FRESH, w + "\n") == if |w| < NMEA_MAX_SIZE then [w + "\n"] else []
    ensures Run(FRESH, w + "\n") == if |w| == NMEA_MAX_SIZE then SKIPPING else FRESH
  {
    RunAppend(FRESH, w, "\n");
    if |w| <= NMEA_MAX_SIZE {
      Gather([], w);
      assert [] + w == w;
    } else {
      var head, c, rest := w[..NMEA_MAX_SIZE], w[NMEA_MAX_SIZE], w[NMEA_MAX_SIZE + 1..];
      assert w == head + ([c] + rest) && c in w;
      Gather([], head);
      assert [] + head == head;
      RunAppend(FRESH, head, [c] + rest);
      RunAppend(Reader(head, false), [c], rest);
      Skip(rest);
    }
  }

  lemma {:induction false} PartialLine(r: Reader, w: string)
    requires '\n' !in w
    ensures Received(r, w) == []
    decreases |w|
  {
    if w == [] {
    } else {
      assert w[0] in w;
      PartialLine(Next(r, w[0]), w[1..]);
    }
  }

  lemma {:induction false} SkippedLine(s: string)
    requires '\n' in s
    ensures Received(SKIPPING, s) == Received(FRESH, s[FirstNewline(s) + 1..])
  {
    var k := FirstNewline(s);
    assert s == s[..k] + (["\n"[0]] + s[k + 1..]);
    RunAppend(SKIPPING, s[..k], ["\n"[0]] + s[k + 1..]);
    Skip(s[..k]);
    RunAppend(SKIPPING, "\n", s[k + 1..]);
  }

  // the reader behind a line, and what it passed on
  lemma {:induction false} LineThen(w: string, rest: string)
    requires '\n' !in w
    ensures Received(FRESH, (w + "\n") + rest) ==
      (if |w| < NMEA_MAX_SIZE then [w + "\n"] else [])
      + Received(if |w| == NMEA_MAX_SIZE then SKIPPING else FRESH, rest)
  {
    RunAppend(FRESH, w + "\n", rest);
    OneLine(w);
  }

  lemma {:induction false} KeptThen(w: string, lines: seq<string>)
    ensures Kept([w] + lines) ==
      if |w| < NMEA_MAX_SIZE then [w + "\n"] + Kept(lines)
      else if |w| == NMEA_MAX_SIZE && lines != [] then Kept(lines[1..]) else Kept(lines)
  {
    assert ([w] + lines)[1..] == lines;
    if lines == [] {
    } else {
      assert ([w] + lines)[2..] == lines[1..];
    }
  }

  lemma {:induction false} LinesThen(s: string)
    requires '\n' in s
    ensures var k := FirstNewline(s); Lines(s) != [] && Lines(s)[1..] == Lines(s[k + 1..])
  {
  }

  /** For every stream the parser is called with exactly the kept lines, unaltered and in order. */
  lemma {:induction false} FramingIsLineSplitting(s: string)
    ensures Received(FRESH, s) == Kept(Lines(s))
    decreases |s|
  {
    if '\n' !in s {
      PartialLine(FRESH, s);
    } else {
      var k := FirstNewline(s);
      var w, rest := s[..k], s[k + 1..];
      assert s == (w + "\n") + rest;
      LineThen(w, rest);
      KeptThen(w, Lines(rest));
      if |w| != NMEA_MAX_SIZE {
        FramingIsLineSplitting(rest);
      } else if '\n' in rest {
        SkippedLine(rest);
        LinesThen(rest);
        FramingIsLineSplitting(rest[FirstNewline(rest) + 1..]);
      } else {
        PartialLine(SKIPPING, rest);
      }
    }
  }

  // ----- the reader of the HAL -----

  class NmeaReader {
    const inb: array<char>
    var pos: int
    var overflow: bool
    var parsed: seq<string>  // the arguments of the parser's calls so far

    ghost predicate Valid()
      reads this
    {
      inb.Length == NMEA_MAX_SIZE + 1 && 0 <= pos <= NMEA_MAX_SIZE
    }

    ghost function View(): Reader
      requires Valid()
      reads this, inb
    {
      Reader(inb[..pos], overflow)
    }

    constructor ()
      ensures Valid() && View() == FRESH && parsed == [] && fresh(inb)
    {
      inb := new char[NMEA_MAX_SIZE + 1];
      pos, overflow, parsed := 0, false, [];
    }

    method AddC(c: char)
      requires Valid()
      modifies this, inb
      ensures Valid() && View() == Next(old(View()), c)
      ensures parsed == old(parsed) + Emitted(old(View()), c)
    {
      if overflow {
        overflow := c != '\n';
        return;
      }
      if pos >= inb.Length - 1 || pos < 0 {
        overflow := true;
        pos := 0;
        return;
      }
      inb[pos] := c;
      pos := pos + 1;
      assert inb[..pos] == old(inb[..pos]) + [c];
      if c == '\n' {
        parsed := parsed + [inb[..pos]];
        pos := 0;
      }
    }

    // the bytes of one read from the daemon's device
    method Feed(bytes: string)
      requires Valid()
      modifies this, inb
      ensures Valid() && View() == Run(old(View()), bytes)
      ensures parsed == old(parsed) + Received(old(View()), bytes)
    {
      for n := 0 to |bytes|
        invariant Valid()
        invariant View() == Run(old(View()), bytes[..n])
        invariant parsed == old(parsed) + Received(old(View()), bytes[..n])
      {
        assert bytes[..n + 1] == bytes[..n] + [bytes[n]];
        RunAppend(old(View()), bytes[..n], [bytes[n]]);
        AddC(bytes[n]);
      }
      assert bytes[..|bytes|] == bytes;
    }
  }

  /** A new reader fed any stream, in any chunks, hands the parser the kept lines of the whole stream. */
  method ReadAll(chunks: seq<string>) returns (parsed: seq<string>)
    ensures parsed == Kept(Lines(Flat(chunks)))
  {
    var reader := new NmeaReader();
    for n := 0 to |chunks|
      invariant reader.Valid() && fresh(reader) && fresh(reader.inb)
      invariant reader.View() == Run(FRESH, Flat(chunks[..n]))
      invariant reader.parsed == Received(FRESH, Flat(chunks[..n]))
    {
      assert chunks[..n + 1][..n] == chunks[..n];
      RunAppend(FRESH, Flat(chunks[..n]), chunks[n]);
      reader.Feed(chunks[n]);
    }
    assert chunks[..|chunks|] == chunks;
    FramingIsLineSplitting(Flat(chunks));
    parsed := reader.parsed;
  }

  function Flat(chunks: seq<string>): string {
    if chunks == [] then [] else Flat(chunks[..|chunks| - 1]) + chunks[|chunks| - 1]
  }
}
