/** The tokenizer of the NMEA parser and its integer reader (sentence format of NMEA 0183). */
module NmeaTokens {
  import opened CommaText

  const MAX_NMEA_TOKENS := 24

  // a slice of the sentence
  datatype Token = Token(p: nat, end: nat)

  // ----- what a sentence consists of -----

  // the fields of a body; nothing follows a trailing comma
  function Fields(body: string): seq<string>
    decreases |body|
  {
    if body == [] then []
    else if ',' !in body then [body]
    else [body[..Comma(body)]] + Fields(body[Comma(body) + 1..])
  }

  // where the body starts: behind an optional dollar sign
  function BodyStart(s: string): (lo: nat)
    ensures lo <= |s|
  {
    if |s| > 0 && s[0] == '$' then 1 else 0
  }

  // where it ends: before the newline, an optional carriage return and an optional checksum
  function BodyEnd(s: string): (hi: nat)
    ensures BodyStart(s) <= hi <= |s|
  {
    var lo := BodyStart(s);
    var h1 := if |s| > lo && s[|s| - 1] == '\n' then
                (if |s| - 1 > lo && s[|s| - 2] == '\r' then |s| - 2 else |s| - 1)
              else |s|;
    if h1 >= lo + 3 && s[h1 - 3] == '*' then h1 - 3 else h1
  }

  function Body(s: string): string {
    s[BodyStart(s)..BodyEnd(s)]
  }

  // the texts of the tokens
  function Texts(s: string): seq<string> {
    var fields := Fields(Body(s));
    if |fields| <= MAX_NMEA_TOKENS then fields else fields[..MAX_NMEA_TOKENS]
  }

  lemma {:induction false} FieldsHaveNoComma(body: string)
    ensures forall f :: f in Fields(body) ==> ',' !in f
    decreases |body|
  {
    if body == [] || ',' !in body {
    } else {
      FieldsHaveNoComma(body[Comma(body) + 1..]);
    }
  }

  // a body whose first comma is at k
  lemma {:induction false} FieldsSplit(body: string, k: nat)
    requires k < |body| && body[k] == ',' && ',' !in body[..k]
    ensures Fields(body) == [body[..k]] + Fields(body[k + 1..])
  {
    assert Comma(body) == k;
  }

  // the comma behind the last field, if there is one
  function Trailing(body: string): string {
    if body != [] && body[|body| - 1] == ',' then "," else ""
  }

  lemma {:induction false} JoinedStep(first: string, rest: string, fields: seq<string>)
    requires rest == Join(fields) + Trailing(rest) && (rest == [] <==> fields == [])
    ensures first + "," + rest == Join([first] + fields) + Trailing(first + "," + rest)
  {
    JoinSplit(first, fields);
    var body := first + "," + rest;
    if rest == [] {
    } else {
      assert body[|body| - 1] == rest[|rest| - 1];
    }
  }

  // a body without commas
  lemma {:induction false} SingleField(body: string)
    requires body != [] && ',' !in body
    ensures Fields(body) == [body] && Trailing(body) == ""
  {
    assert body[|body| - 1] in body;
  }

  /** Joining the fields with commas gives the body back, up to one trailing comma. */
  lemma {:induction false} JoinedFields(body: string)
    ensures body == Join(Fields(body)) + Trailing(body)
    decreases |body|
  {
    if body == [] {
    } else if ',' !in body {
      SingleField(body);
    } else {
      var k := Comma(body);
      FieldsSplit(body, k);
      JoinedFields(body[k + 1..]);
      JoinedRest(body, k, Fields(body[k + 1..]));
    }
  }

  lemma {:induction false} JoinedRest(body: string, k: nat, fields: seq<string>)
    requires k < |body| && body[k] == ','
    requires body[k + 1..] == Join(fields) + Trailing(body[k + 1..]) && (body[k + 1..] == [] <==> fields == [])
    ensures body == Join([body[..k]] + fields) + Trailing(body)
  {
    var first, rest := body[..k], body[k + 1..];
    JoinedStep(first, rest, fields);
    assert body == first + "," + rest;
  }

  lemma {:induction false} FirstField(first: string, tail: string)
    requires ',' !in first
    ensures Fields(first + "," + tail) == [first] + Fields(tail)
  {
    var body := first + "," + tail;
    assert body[..|first|] == first && body[|first| + 1..] == tail;
    FieldsSplit(body, |first|);
  }

  // an empty last field leaves only the comma in front of it, behind which nothing follows
  function WithoutLastEmpty(fields: seq<string>): seq<string>
    requires fields != []
  {
    if fields[|fields| - 1] == "" then fields[..|fields| - 1] else fields
  }

  lemma {:induction false} LastBehindFirst(first: string, rest: seq<string>)
    requires rest != []
    ensures WithoutLastEmpty([first] + rest) == [first] + WithoutLastEmpty(rest)
  {
  }

  lemma {:induction false} FieldsOfJoin(fields: seq<string>)
    requires fields != [] && CommaFree(fields)
    ensures Fields(Join(fields)) == WithoutLastEmpty(fields)
    decreases |fields|
  {
    var first, rest := fields[0], fields[1..];
    assert first in fields;
    if rest == [] {
      assert fields == [first];
    } else {
      FieldsOfJoin(rest);
      FirstField(first, Join(rest));
      LastBehindFirst(first, rest);
      assert [first] + rest == fields;
    }
  }

  /** A sentence as NMEA 0183 frames it: its fields are exactly what the tokenizer returns, up to an empty last one. */
  lemma {:induction false} TokensOfSentence(fields: seq<string>, c1: char, c2: char)
    requires 0 < |fields| <= MAX_NMEA_TOKENS && CommaFree(fields)
    ensures Texts("$" + Join(fields) + ['*', c1, c2, '\r', '\n']) == WithoutLastEmpty(fields)
  {
    var body := Join(fields);
    var s := "$" + body + ['*', c1, c2, '\r', '\n'];
    assert BodyStart(s) == 1 && BodyEnd(s) == |body| + 1;
    assert Body(s) == body;
    FieldsOfJoin(fields);
  }

  // ----- the tokenizer -----

  function CommaAt(s: string, p: nat, hi: nat): (q: nat)
    requires p <= hi <= |s|
    ensures p <= q <= hi
    decreases hi - p
  {
    if p == hi || s[p] == ',' then p else CommaAt(s, p + 1, hi)
  }

  lemma {:induction false} CommaAtIsFirst(s: string, p: nat, hi: nat)
    requires p <= hi <= |s|
    ensures var q := CommaAt(s, p, hi); ',' !in s[p..q] && (q < hi ==> s[q] == ',')
    decreases hi - p
  {
    if p == hi || s[p] == ',' {
    } else {
      CommaAtIsFirst(s, p + 1, hi);
      var q := CommaAt(s, p, hi);
      assert s[p..q] == [s[p]] + s[p + 1..q];
    }
  }

  // the fields of s[p..hi], by position
  function FieldsAt(s: string, p: nat, hi: nat): seq<string>
    requires p <= hi <= |s|
    decreases hi - p
  {
    if p == hi then [] else
      var q := CommaAt(s, p, hi);
      [s[p..q]] + FieldsAt(s, if q < hi then q + 1 else q, hi)
  }

  lemma {:induction false} SliceSplit(s: string, p: nat, q: nat, hi: nat)
    requires p <= q < hi <= |s| && s[q] == ',' && ',' !in s[p..q]
    ensures Fields(s[p..hi]) == [s[p..q]] + Fields(s[q + 1..hi])
  {
    var body := s[p..hi];
    assert body[..q - p] == s[p..q] && body[q - p + 1..] == s[q + 1..hi];
    FieldsSplit(body, q - p);
  }

  lemma {:induction false} FieldAt(s: string, p: nat, hi: nat)
    requires p < hi <= |s|
    ensures var q := CommaAt(s, p, hi);
      FieldsAt(s, p, hi) == [s[p..q]] + (if q < hi then FieldsAt(s, q + 1, hi) else [])
  {
  }

  lemma {:induction false} FieldsByPosition(s: string, p: nat, hi: nat)
    requires p <= hi <= |s|
    ensures FieldsAt(s, p, hi) == Fields(s[p..hi])
    decreases hi - p
  {
    if p == hi {
    } else {
      var q := CommaAt(s, p, hi);
      CommaAtIsFirst(s, p, hi);
      FieldAt(s, p, hi);
      if q < hi {
        SliceSplit(s, p, q, hi);
        FieldsByPosition(s, q + 1, hi);
      } else {
        SingleField(s[p..hi]);
      }
    }
  }

  // the memchr of the C library
  method FindComma(s: string, from: nat, end: nat) returns (q: nat)
    requires from <= end <= |s|
    ensures q == CommaAt(s, from, end)
  {
    q := from;
    while q < end && s[q] != ','
      invariant from <= q <= end && CommaAt(s, from, end) == CommaAt(s, q, end)
    {
      q := q + 1;
    }
  }

  // the tokens are slices of s[lo..hi] one comma apart, starting at lo
  ghost predicate Ordered(tokens: seq<Token>, lo: nat, hi: nat) {
    tokens == [] ||
    (var n := |tokens| - 1;
     && Ordered(tokens[..n], lo, hi) && lo <= tokens[n].p <= tokens[n].end <= hi
     && tokens[n].p == if n == 0 then lo else tokens[n - 1].end + 1)
  }

  // ... and read as the first n of the given fields, at most 24
  ghost predicate ReadFirst(s: string, tokens: seq<Token>, fields: seq<string>, n: nat) {
    && n <= |fields| && |tokens| == (if n <= MAX_NMEA_TOKENS then n else MAX_NMEA_TOKENS)
    && (forall i :: 0 <= i < |tokens| ==>
          tokens[i].p <= tokens[i].end <= |s| && s[tokens[i].p..tokens[i].end] == fields[i])
  }

  ghost predicate Read(s: string, tokens: seq<Token>, fields: seq<string>) {
    ReadFirst(s, tokens, fields, |fields|)
  }

  /** At most 24 tokens: slices of the stripped body, in order and one comma apart, whose texts are the first
      fields of the body. */
  method TokenizerInit(s: string) returns (tokens: seq<Token>)
    ensures |tokens| <= MAX_NMEA_TOKENS
    ensures Ordered(tokens, BodyStart(s), BodyEnd(s))
    ensures Read(s, tokens, Fields(Body(s)))
  {
    var p, end := 0, |s|;
    if p < end && s[p] == '$' {
      p := p + 1;
    }
    if end > p && s[end - 1] == '\n' {
      end := end - 1;
      if end > p && s[end - 1] == '\r' {
        end := end - 1;
      }
    }
    if end >= p + 3 && s[end - 3] == '*' {
      end := end - 3;
    }
    assert p == BodyStart(s) && end == BodyEnd(s);
    FieldsByPosition(s, p, end);
    tokens := Split(s, p, end);
  }

  // the loop at position p: n fields are done, the others lie ahead
  ghost predicate Progress(s: string, lo: nat, hi: nat, tokens: seq<Token>, p: nat, n: nat) {
    && lo <= p <= hi <= |s|
    && Ordered(tokens, lo, hi) && ReadFirst(s, tokens, FieldsAt(s, lo, hi), n)
    && FieldsAt(s, lo, hi)[n..] == FieldsAt(s, p, hi)
    && (p < hi && |tokens| < MAX_NMEA_TOKENS ==> p == if tokens == [] then lo else tokens[|tokens| - 1].end + 1)
  }

  // one pass of the loop: from position p with these tokens to position p1 with those
  lemma {:induction false} OneMoreField(s: string, lo: nat, hi: nat, tokens: seq<Token>, p: nat, n: nat,
                                        tokens1: seq<Token>, p1: nat)
    requires p < hi && Progress(s, lo, hi, tokens, p, n)
    requires tokens1 == if |tokens| < MAX_NMEA_TOKENS then tokens + [Token(p, CommaAt(s, p, hi))] else tokens
    requires p1 == if CommaAt(s, p, hi) < hi then CommaAt(s, p, hi) + 1 else CommaAt(s, p, hi)
    ensures p < p1 <= hi && Progress(s, lo, hi, tokens1, p1, n + 1)
  {
    var all, q := FieldsAt(s, lo, hi), CommaAt(s, p, hi);
    NextField(s, p, hi, all, n);
    if |tokens| < MAX_NMEA_TOKENS {
      OneMoreRead(s, tokens, all, n, Token(p, q));
      OneMoreInOrder(tokens, lo, hi, Token(p, q));
    }
  }

  lemma {:induction false} OneMoreRead(s: string, tokens: seq<Token>, fields: seq<string>, n: nat, t: Token)
    requires ReadFirst(s, tokens, fields, n) && n < |fields| && |tokens| < MAX_NMEA_TOKENS
    requires t.p <= t.end <= |s| && s[t.p..t.end] == fields[n]
    ensures ReadFirst(s, tokens + [t], fields, n + 1)
  {
  }

  lemma {:induction false} OneMoreInOrder(tokens: seq<Token>, lo: nat, hi: nat, t: Token)
    requires Ordered(tokens, lo, hi) && lo <= t.p <= t.end <= hi
    requires t.p == if tokens == [] then lo else tokens[|tokens| - 1].end + 1
    ensures Ordered(tokens + [t], lo, hi)
  {
    assert (tokens + [t])[..|tokens|] == tokens;
  }

  lemma {:induction false} NextField(s: string, p: nat, hi: nat, all: seq<string>, n: nat)
    requires p < hi <= |s| && n <= |all| && all[n..] == FieldsAt(s, p, hi)
    ensures n < |all| && all[n] == s[p..CommaAt(s, p, hi)]
    ensures var q := CommaAt(s, p, hi); all[n + 1..] == FieldsAt(s, if q < hi then q + 1 else q, hi)
  {
    assert all[n] == all[n..][0] && all[n + 1..] == all[n..][1..];
  }

  // the loop over the body
  method Split(s: string, lo: nat, hi: nat) returns (tokens: seq<Token>)
    requires lo <= hi <= |s|
    ensures |tokens| <= MAX_NMEA_TOKENS && Ordered(tokens, lo, hi) && Read(s, tokens, FieldsAt(s, lo, hi))
  {
    var p := lo;
    ghost var n := 0;
    tokens := [];
    while p < hi
      invariant Progress(s, lo, hi, tokens, p, n)
      decreases hi - p
    {
      ghost var tokens0, p0 := tokens, p;
      var q := FindComma(s, p, hi);
      if |tokens| < MAX_NMEA_TOKENS {
        tokens := tokens + [Token(p, q)];
      }
      if q < hi {
        q := q + 1;
      }
      p := q;
      OneMoreField(s, lo, hi, tokens0, p0, n, tokens, p);
      n := n + 1;
    }
    AllFieldsDone(s, lo, hi, tokens, n);
  }

  lemma {:induction false} AllFieldsDone(s: string, lo: nat, hi: nat, tokens: seq<Token>, n: nat)
    requires Progress(s, lo, hi, tokens, hi, n)
    ensures Read(s, tokens, FieldsAt(s, lo, hi))
  {
    assert n == |FieldsAt(s, lo, hi)|;
  }

  /** Tokens one comma apart are in order and disjoint. */
  lemma {:induction false} OrderedTokensAreDisjoint(tokens: seq<Token>, lo: nat, hi: nat, i: nat, j: nat)
    requires Ordered(tokens, lo, hi) && i < j < |tokens|
    ensures lo <= tokens[i].p <= tokens[i].end < tokens[j].p <= tokens[j].end <= hi
    decreases |tokens|
  {
    var n := |tokens| - 1;
    var front := tokens[..n];
    if j < n {
      OrderedTokensAreDisjoint(front, lo, hi, i, j);
    } else if i == n - 1 {
      assert front[n - 1] == tokens[n - 1];
    } else {
      OrderedTokensAreDisjoint(front, lo, hi, i, n - 1);
    }
  }

  // nmea_tokenizer_get: an index beyond the count gives an empty token
  function Get(texts: seq<string>, index: int): string {
    if index < 0 || index >= |texts| then [] else texts[index]
  }

  // ----- integers -----

  predicate IsDigit(c: char) {
    '0' <= c <= '9'
  }

  predicate AllDigits(s: string) {
    forall i :: 0 <= i < |s| ==> IsDigit(s[i])
  }

  function Value(digits: string): nat
    requires AllDigits(digits)
  {
    if digits == [] then 0
    else Value(digits[..|digits| - 1]) * 10 + (digits[|digits| - 1] - '0') as nat
  }

  // the reading of a token; -1 also stands for failure
  function Number(token: string): int {
    var negative := token != [] && token[0] == '-';
    var digits := if negative then token[1..] else token;
    if !AllDigits(digits) then -1 else if negative then 0 - Value(digits) else Value(digits)
  }

  /** Reads a token. A token without digits reads as 0, one with any other character as -1. */
  method Str2Int(token: string) returns (result: int)
    ensures result == Number(token)
  {
    result := 0;
    var sign, p := 1, 0;
    if token != [] && token[0] == '-' {
      sign, p := -1, 1;
    }
    ghost var digits := token[p..];
    var start := p;
    while p < |token|
      invariant start <= p <= |token|
      invariant AllDigits(digits[..p - start]) && result == Value(digits[..p - start])
    {
      if !IsDigit(token[p]) {
        assert digits[p - start] == token[p];
        return -1;
      }
      assert digits[..p + 1 - start][..p - start] == digits[..p - start];
      result := result * 10 + (token[p] - '0') as int;
      p := p + 1;
    }
    assert digits[..p - start] == digits;
    result := sign * result;
  }

  function Decimal(n: nat): string {
    if n < 10 then ['0' + n as char] else Decimal(n / 10) + ['0' + (n % 10) as char]
  }

  function Signed(n: int): string {
    if n < 0 then "-" + Decimal(-n) else Decimal(n)
  }

  lemma {:induction false} DecimalValue(n: nat)
    ensures Decimal(n) != [] && AllDigits(Decimal(n)) && Value(Decimal(n)) == n
  {
    if n < 10 {
      assert Value(Decimal(n)) == Value([]) * 10 + n;
    } else {
      DecimalValue(n / 10);
      var s := Decimal(n);
      assert s[..|s| - 1] == Decimal(n / 10);
    }
  }

  /** Every integer is read back from its decimal form; -1 is the one value that failure can be taken for. */
  lemma {:induction false} NumberRoundTrip(n: nat)
    ensures Number(Decimal(n)) == n && Number("-" + Decimal(n)) == 0 - n
  {
    DecimalValue(n);
    assert ("-" + Decimal(n))[1..] == Decimal(n);
  }

  /** Tokens of at most nine digits stay within a C int, so their reading cannot overflow. */
  lemma {:induction false} NineDigitsFit(digits: string)
    requires AllDigits(digits) && |digits| <= 9
    ensures Value(digits) < 10_0000_0000
  {
    ValueBound(digits);
  }

  function Pow10(n: nat): nat {
    if n == 0 then 1 else 10 * Pow10(n - 1)
  }

  lemma {:induction false} ValueBound(digits: string)
    requires AllDigits(digits)
    ensures Value(digits) < Pow10(|digits|)
    ensures |digits| <= 9 ==> Pow10(|digits|) <= 10_0000_0000
  {
    if digits == [] {
    } else {
      ValueBound(digits[..|digits| - 1]);
      PowGrows(|digits|, 9);
    }
  }

  lemma {:induction false} PowGrows(a: nat, b: nat)
    ensures a <= b ==> Pow10(a) <= Pow10(b)
    ensures Pow10(9) == 10_0000_0000
    decreases b
  {
    assert Pow10(3) == 1000 && Pow10(6) == 1000 * Pow10(3);
    if a < b {
      PowGrows(a, b - 1);
    }
  }
}
