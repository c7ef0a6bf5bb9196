/** Java's library calls on text. */
module JavaText {
  import opened Options
  import NmeaTokens

  function IndexOf(s: string, c: char): (k: nat)
    requires c in s
    ensures k < |s| && s[k] == c && c !in s[..k]
  {
    if s[0] == c then 0 else
      var k := 1 + IndexOf(s[1..], c);
      assert s[..k] == [s[0]] + s[1..][..k - 1];
      k
  }

  function Pieces(s: string, c: char): seq<string>
    decreases |s|
  {
    if c !in s then [s] else [s[..IndexOf(s, c)]] + Pieces(s[IndexOf(s, c) + 1..], c)
  }

  function WithoutTrailingEmpty(pieces: seq<string>): seq<string> {
    if pieces != [] && pieces[|pieces| - 1] == "" then WithoutTrailingEmpty(pieces[..|pieces| - 1]) else pieces
  }

  // Java's split at a single character: the whole text if it does not occur, else the pieces without trailing
  // empty ones
  function Split(s: string, c: char): seq<string> {
    if c !in s then [s] else WithoutTrailingEmpty(Pieces(s, c))
  }

  // the parts with the character between them
  function JoinedBy(parts: seq<string>, c: char): string {
    if parts == [] then "" else if |parts| == 1 then parts[0] else (parts[0] + [c]) + JoinedBy(parts[1..], c)
  }

  lemma {:induction false} PiecesFirst(first: string, rest: string, c: char)
    requires c !in first
    ensures Pieces((first + [c]) + rest, c) == [first] + Pieces(rest, c)
  {
    var s := (first + [c]) + rest;
    assert s[|first|] == c && s[..|first|] == first && s[|first| + 1..] == rest;
    FirstIndex(s, c, |first|);
  }

  lemma {:induction false} FirstIndex(s: string, c: char, k: nat)
    requires k < |s| && s[k] == c && c !in s[..k]
    ensures IndexOf(s, c) == k
  {
  }

  predicate FreeOf(parts: seq<string>, c: char) {
    parts == [] || (c !in parts[0] && FreeOf(parts[1..], c))
  }

  lemma {:induction false} PiecesOfJoined(parts: seq<string>, c: char)
    requires parts != [] && FreeOf(parts, c)
    ensures Pieces(JoinedBy(parts, c), c) == parts
    decreases |parts|
  {
    var first, rest := parts[0], parts[1..];
    assert [first] + rest == parts;
    if rest == [] {
    } else {
      PiecesOfJoined(rest, c);
      PiecesFirst(first, JoinedBy(rest, c), c);
    }
  }

  /** Parts without the character are found again in their joined text, up to empty ones at the end; a single part is
      kept as it is. */
  lemma {:induction false} SplitOfJoined(parts: seq<string>, c: char)
    requires parts != [] && FreeOf(parts, c)
    ensures Split(JoinedBy(parts, c), c) == if |parts| == 1 then parts else WithoutTrailingEmpty(parts)
  {
    PiecesOfJoined(parts, c);
    if |parts| == 1 {
      assert parts == [parts[0]];
    } else {
      assert JoinedBy(parts, c)[|parts[0]|] == c;
    }
  }

  // Integer.parseInt on ASCII digits; None is its NumberFormatException
  function IntegerOf(s: string): Option<int> {
    var negative := s != "" && s[0] == '-';
    var digits := if negative || (s != "" && s[0] == '+') then s[1..] else s;
    if digits == "" || !NmeaTokens.AllDigits(digits) then None
    else
      var v := if negative then 0 - NmeaTokens.Value(digits) else NmeaTokens.Value(digits);
      if -0x8000_0000 <= v < 0x8000_0000 then Some(v) else None
  }

  lemma {:induction false} DigitsOnly(n: nat)
    ensures forall c :: c in NmeaTokens.Decimal(n) ==> NmeaTokens.IsDigit(c)
  {
    NmeaTokens.DecimalValue(n);
  }

  /** Every 32-bit integer is read back from its decimal form, which holds no separator. */
  lemma {:induction false} IntegerRoundTrip(n: int)
    requires -0x8000_0000 <= n < 0x8000_0000
    ensures var s := NmeaTokens.Signed(n); IntegerOf(s) == Some(n) && s != "" && ',' !in s && ';' !in s
  {
    var m: nat := if n < 0 then -n else n;
    NmeaTokens.DecimalValue(m);
    DigitsOnly(m);
    var digits := NmeaTokens.Decimal(m);
    assert digits[0] in digits;
    assert ("-" + digits)[1..] == digits;
  }
}
