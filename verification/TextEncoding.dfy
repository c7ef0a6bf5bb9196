/** The two encoders behind SUPL messages: a C string to big-endian UCS-2 with a byte order mark, and bytes to
    upper-case hexadecimal. */
module TextEncoding {
  import opened Bytes

  function Ucs2(s: seq<Byte>): seq<Byte> {
    if s == [] then [0xfe, 0xff] else Ucs2(s[..|s| - 1]) + [0, s[|s| - 1]]
  }

  function HexDigit(nibble: nat): char
    requires nibble < 16
  {
    if nibble <= 9 then nibble as char + '0' else (nibble - 10) as char + 'A'
  }

  function HexPair(b: Byte): seq<char> {
    [HexDigit(b as nat / 16), HexDigit(b as nat % 16)]
  }

  function Hex(b: seq<Byte>): seq<char> {
    if b == [] then []
    else Hex(b[..|b| - 1]) + HexPair(b[|b| - 1])
  }

  // ----- reading the output back -----

  function NibbleOf(c: char): nat {
    if '0' <= c <= '9' then (c - '0') as nat else if 'A' <= c <= 'F' then (c - 'A') as nat + 10 else 0
  }

  function ByteOf(high: char, low: char): Byte {
    ((NibbleOf(high) * 16 + NibbleOf(low)) % 256) as Byte
  }

  function HexDecode(h: seq<char>): seq<Byte> {
    if |h| < 2 then []
    else HexDecode(h[..|h| - 2]) + [ByteOf(h[|h| - 2], h[|h| - 1])]
  }

  function WithoutZeros(b: seq<Byte>): seq<Byte> {
    if b == [] then [] else WithoutZeros(b[..|b| - 1]) + (if b[|b| - 1] == 0 then [] else [b[|b| - 1]])
  }

  lemma {:induction false} DigitRoundTrip(nibble: nat)
    requires nibble < 16
    ensures NibbleOf(HexDigit(nibble)) == nibble
  {
  }

  lemma {:induction false} PairRoundTrip(b: Byte)
    ensures ByteOf(HexPair(b)[0], HexPair(b)[1]) == b
  {
    DigitRoundTrip(b as nat / 16);
    DigitRoundTrip(b as nat % 16);
  }

  lemma {:induction false} DecodePair(h: seq<char>, pair: seq<char>)
    requires |pair| == 2
    ensures HexDecode(h + pair) == HexDecode(h) + [ByteOf(pair[0], pair[1])]
  {
    assert (h + pair)[..|h|] == h;
  }

  lemma {:induction false} HexRoundTrip(b: seq<Byte>)
    ensures |Hex(b)| == 2 * |b| && HexDecode(Hex(b)) == b
  {
    if b == [] {
    } else {
      var init, last := b[..|b| - 1], b[|b| - 1];
      HexRoundTrip(init);
      PairRoundTrip(last);
      DecodePair(Hex(init), HexPair(last));
      assert init + [last] == b;
    }
  }

  lemma {:induction false} StripLast(coded: seq<Byte>, last: Byte)
    requires last != 0
    ensures WithoutZeros(coded + [0, last]) == WithoutZeros(coded) + [last]
  {
    var all := coded + [0, last];
    assert all[..|all| - 1] == coded + [0];
    assert (coded + [0])[..|coded|] == coded;
    assert WithoutZeros(coded + [0]) == WithoutZeros(coded) + [];
  }

  lemma {:induction false} BehindMark(coded: seq<Byte>, last: Byte)
    requires |coded| >= 2
    ensures (coded + [0, last])[2..] == coded[2..] + [0, last] && (coded + [0, last])[..2] == coded[..2]
  {
  }

  lemma {:induction false} Ucs2RoundTrip(s: seq<Byte>)
    requires 0 !in s
    ensures |Ucs2(s)| == 2 * |s| + 2 && Ucs2(s)[..2] == [0xfe, 0xff] && WithoutZeros(Ucs2(s)[2..]) == s
  {
    if s == [] {
    } else {
      var init, last := s[..|s| - 1], s[|s| - 1];
      Ucs2RoundTrip(init);
      StripLast(Ucs2(init)[2..], last);
      BehindMark(Ucs2(init), last);
      assert init + [last] == s;
    }
  }

  /** Hex-decoding the output of both encoders, dropping the byte order mark and the zero bytes gives the string
      back; the output takes four digits per character and four for the mark. */
  lemma {:induction false} TextRoundTrip(s: seq<Byte>)
    requires 0 !in s
    ensures |Hex(Ucs2(s))| == 4 * |s| + 4
    ensures var decoded := HexDecode(Hex(Ucs2(s)));
      |decoded| >= 2 && decoded[..2] == [0xfe, 0xff] && WithoutZeros(decoded[2..]) == s
  {
    Ucs2RoundTrip(s);
    HexRoundTrip(Ucs2(s));
  }

  /** Where the characters stand: behind the mark, each behind a zero byte. */
  lemma {:induction false} Ucs2At(s: seq<Byte>, i: nat)
    requires i < |s|
    ensures |Ucs2(s)| == 2 * |s| + 2 && Ucs2(s)[2 * i + 2] == 0 && Ucs2(s)[2 * i + 3] == s[i]
    decreases |s|
  {
    var init := s[..|s| - 1];
    if init == [] {
    } else if i < |s| - 1 {
      Ucs2At(init, i);
    } else {
      Ucs2At(init, 0);
    }
  }

  /** The digits of each byte: high half first, from 0 to 9 and then from A to F. */
  lemma {:induction false} HexAt(b: seq<Byte>, i: nat)
    requires i < |b|
    ensures |Hex(b)| == 2 * |b|
    ensures Hex(b)[2 * i] == "0123456789ABCDEF"[b[i] as nat / 16]
    ensures Hex(b)[2 * i + 1] == "0123456789ABCDEF"[b[i] as nat % 16]
    decreases |b|
  {
    var init, last := b[..|b| - 1], b[|b| - 1];
    DigitIs(last as nat / 16);
    DigitIs(last as nat % 16);
    if init == [] {
    } else if i < |b| - 1 {
      HexAt(init, i);
    } else {
      HexAt(init, 0);
    }
  }

  lemma {:induction false} DigitIs(nibble: nat)
    requires nibble < 16
    ensures HexDigit(nibble) == "0123456789ABCDEF"[nibble]
  {
  }

  // ----- the encoders -----

  /** Returns the length without the terminator. The two terminating zeros are written one place too far: the
      byte at the returned length itself keeps what it held. */
  method AscStrToUsc2Str(output: array<Byte>, input: seq<Byte>) returns (len: nat)
    requires 0 !in input && 2 * |input| + 5 <= output.Length
    modifies output
    ensures len == 2 * |input| + 2 && output[..len] == Ucs2(input)
    ensures output[len] == old(output[len]) && output[len + 1] == 0 && output[len + 2] == 0
    ensures output[len + 3..] == old(output[len + 3..])
  {
    len := 2;
    output[0] := 0xfe;
    output[1] := 0xff;
    for i := 0 to |input|
      invariant len == 2 * i + 2
      invariant output[..len] == Ucs2(input[..i])
      invariant forall k :: len <= k < output.Length ==> output[k] == old(output[k])
    {
      assert input[..i + 1][..i] == input[..i];
      output[len] := 0;
      output[len + 1] := input[i];
      len := len + 2;
      assert output[..len] == Ucs2(input[..i]) + [0, input[i]];
    }
    assert input[..|input|] == input;
    output[len + 1] := 0;
    output[len + 2] := 0;
  }

  method PutDigit(output: array<char>, at: nat, tmp: nat)
    requires at < output.Length && tmp < 16
    modifies output
    ensures output[..] == old(output[..])[at := HexDigit(tmp)]
  {
    if tmp <= 9 {
      output[at] := tmp as char + '0';
    } else {
      output[at] := (tmp - 10) as char + 'A';
    }
  }

  method RawDataToHexString(output: array<char>, input: seq<Byte>)
    requires 2 * |input| <= output.Length
    modifies output
    ensures output[..2 * |input|] == Hex(input)
    ensures output[2 * |input|..] == old(output[2 * |input|..])
  {
    for i := 0 to |input|
      invariant output[..2 * i] == Hex(input[..i])
      invariant output[2 * i..] == old(output[2 * i..])
    {
      assert input[..i + 1][..i] == input[..i];
      PutDigit(output, i * 2, input[i] as nat / 16);
      PutDigit(output, i * 2 + 1, input[i] as nat % 16);
      assert output[..2 * (i + 1)] == Hex(input[..i]) + [output[2 * i], output[2 * i + 1]];
    }
    assert input[..|input|] == input;
  }
}
