/** The message buffers the HAL and the GPS daemon exchange: fields put one after another at a moving offset,
    native little-endian 32-bit ints, strings and binaries behind their length, structs bare. */
module WireCodec {
  import opened Bytes
  import opened Options

  const WORD := 0x1_0000_0000

  predicate IsInt32(i: int) {
    -0x8000_0000 <= i < 0x8000_0000
  }

  function Low(u: nat): Byte {
    (u % 0x100) as Byte
  }

  function EncodeInt(i: int): (r: seq<Byte>)
    requires IsInt32(i)
    ensures |r| == 4
  {
    var u := if i < 0 then i + WORD else i;
    [Low(u), Low(u / 0x100), Low(u / 0x1_0000), Low(u / 0x100_0000)]
  }

  function DecodeInt(b: seq<Byte>): (i: int)
    requires |b| == 4
    ensures IsInt32(i)
  {
    var u := b[0] as int + 0x100 * b[1] as int + 0x1_0000 * b[2] as int + 0x100_0000 * b[3] as int;
    if u < 0x8000_0000 then u else u - WORD
  }

  lemma {:induction false} IntRoundTrip(i: int)
    requires IsInt32(i)
    ensures DecodeInt(EncodeInt(i)) == i
  {
    var u := if i < 0 then i + WORD else i;
    assert u / 0x1_0000 == u / 0x100 / 0x100;
    assert u / 0x100_0000 == u / 0x1_0000 / 0x100;
    assert u / 0x100_0000 < 0x100;
  }

  /** On the wire the lowest byte comes first, negative numbers in two's complement. */
  lemma {:induction false} BytesOnTheWire(i: int, b0: Byte, b1: Byte, b2: Byte, b3: Byte)
    requires IsInt32(i)
    requires b0 as int + 0x100 * b1 as int + 0x1_0000 * b2 as int + 0x100_0000 * b3 as int
          == if i < 0 then i + 0x1_0000_0000 else i
    ensures EncodeInt(i) == [b0, b1, b2, b3]
  {
    IntRoundTrip(i);
    var r := EncodeInt(i);
    SameDigits(r[0] as nat, r[1] as nat, r[2] as nat, r[3] as nat, b0 as nat, b1 as nat, b2 as nat, b3 as nat);
  }

  lemma {:induction false} SameDigit(a: nat, x: nat, b: nat, y: nat)
    requires a < 0x100 && b < 0x100 && a + 0x100 * x == b + 0x100 * y
    ensures a == b && x == y
  {
  }

  lemma {:induction false} SameDigits(a0: nat, a1: nat, a2: nat, a3: nat, b0: nat, b1: nat, b2: nat, b3: nat)
    requires a0 < 0x100 && a1 < 0x100 && a2 < 0x100 && a3 < 0x100
    requires b0 < 0x100 && b1 < 0x100 && b2 < 0x100 && b3 < 0x100
    requires a0 + 0x100 * a1 + 0x1_0000 * a2 + 0x100_0000 * a3 == b0 + 0x100 * b1 + 0x1_0000 * b2 + 0x100_0000 * b3
    ensures a0 == b0 && a1 == b1 && a2 == b2 && a3 == b3
  {
    SameDigit(a0, a1 + 0x100 * a2 + 0x1_0000 * a3, b0, b1 + 0x100 * b2 + 0x1_0000 * b3);
    SameDigit(a1, a2 + 0x100 * a3, b1, b2 + 0x100 * b3);
    SameDigit(a2, a3, b2, b3);
  }

  // ----- lists of fields -----

  datatype Field = Int(i: int) | Str(s: seq<Byte>) | Bin(b: seq<Byte>) | Struct(d: seq<Byte>)
  // what a reader expects: the size of a struct is known to both sides
  datatype Kind = IntKind | StrKind | BinKind | StructKind(size: nat)

  // C strings hold no NUL, and lengths are C ints
  predicate Sendable(f: Field) {
    match f
    case Int(i) => IsInt32(i)
    case Str(s) => 0 !in s && IsInt32(|s| + 1)
    case Bin(b) => IsInt32(|b|)
    case Struct(_) => true
  }

  function KindOf(f: Field): Kind {
    match f
    case Int(_) => IntKind
    case Str(_) => StrKind
    case Bin(_) => BinKind
    case Struct(d) => StructKind(|d|)
  }

  function Encode(f: Field): seq<Byte>
    requires Sendable(f)
  {
    match f
    case Int(i) => EncodeInt(i)
    case Str(s) => EncodeInt(|s| + 1) + (s + [0])
    case Bin(b) => EncodeInt(|b|) + b
    case Struct(d) => d
  }

  predicate AllSendable(fields: seq<Field>) {
    forall f :: f in fields ==> Sendable(f)
  }

  function EncodeAll(fields: seq<Field>): seq<Byte>
    requires AllSendable(fields)
  {
    if fields == [] then [] else Encode(fields[0]) + EncodeAll(fields[1..])
  }

  // bytes a field of this kind occupies at the front of the data, if it is all there
  function Extent(k: Kind, data: seq<Byte>): Option<nat> {
    match k
    case IntKind => if |data| >= 4 then Some(4) else None
    case StructKind(size) => if |data| >= size then Some(size) else None
    case _ =>
      if |data| < 4 then None
      else var len := DecodeInt(data[..4]);
        if len < 0 || |data| < 4 + len || (k.StrKind? && len == 0) then None else Some(4 + len)
  }

  // a string is read up to the NUL its length covers
  function Decode(k: Kind, data: seq<Byte>): Field
    requires Extent(k, data).Some?
  {
    match k
    case IntKind => Int(DecodeInt(data[..4]))
    case StructKind(size) => Struct(data[..size])
    case StrKind => Str(data[4..Extent(k, data).value - 1])
    case BinKind => Bin(data[4..Extent(k, data).value])
  }

  function ExtentAll(kinds: seq<Kind>, data: seq<Byte>): Option<nat> {
    if kinds == [] then Some(0)
    else match Extent(kinds[0], data)
      case None => None
      case Some(n) =>
        if n > |data| then None
        else match ExtentAll(kinds[1..], data[n..])
          case None => None
          case Some(m) => Some(n + m)
  }

  function DecodeAll(kinds: seq<Kind>, data: seq<Byte>): seq<Field>
    requires ExtentAll(kinds, data).Some?
  {
    if kinds == [] then []
    else
      var n := Extent(kinds[0], data).value;
      [Decode(kinds[0], data)] + DecodeAll(kinds[1..], data[n..])
  }

  function KindsOf(fields: seq<Field>): seq<Kind> {
    seq(|fields|, i requires 0 <= i < |fields| => KindOf(fields[i]))
  }

  lemma {:induction false} FieldRoundTrip(f: Field, tail: seq<Byte>)
    requires Sendable(f)
    ensures Extent(KindOf(f), Encode(f) + tail) == Some(|Encode(f)|)
    ensures Decode(KindOf(f), Encode(f) + tail) == f
  {
    var data := Encode(f) + tail;
    match f {
      case Int(i) =>
        assert data[..4] == EncodeInt(i);
        IntRoundTrip(i);
      case Str(s) =>
        assert data[..4] == EncodeInt(|s| + 1);
        IntRoundTrip(|s| + 1);
        assert data[4..4 + |s|] == s;
      case Bin(b) =>
        assert data[..4] == EncodeInt(|b|);
        IntRoundTrip(|b|);
        assert data[4..4 + |b|] == b;
      case Struct(d) =>
        assert data[..|d|] == d;
    }
  }

  /** A short text goes out as one more than its length, its characters and a NUL, a binary as length and bytes. */
  lemma {:induction false} ShortTextOnTheWire(s: seq<Byte>, len: Byte)
    requires 0 !in s && |s| <= 255
    ensures len as int == |s| + 1 ==> Encode(Str(s)) == [len, 0, 0, 0] + s + [0]
    ensures len as int == |s| ==> Encode(Bin(s)) == [len, 0, 0, 0] + s
  {
    if len as int == |s| + 1 {
      BytesOnTheWire(|s| + 1, len, 0, 0, 0);
    }
    if len as int == |s| {
      BytesOnTheWire(|s|, len, 0, 0, 0);
    }
  }

  // reading the first field and then the others
  lemma {:induction false} DecodeStep(k: Kind, first: seq<Byte>, kinds: seq<Kind>, more: seq<Byte>, tail: seq<Byte>)
    requires Extent(k, first + (more + tail)) == Some(|first|)
    requires ExtentAll(kinds, more + tail) == Some(|more|)
    ensures ExtentAll([k] + kinds, (first + more) + tail) == Some(|first + more|)
    ensures DecodeAll([k] + kinds, (first + more) + tail)
         == [Decode(k, first + (more + tail))] + DecodeAll(kinds, more + tail)
  {
    Regroup(first, more, tail);
    DecodeFirst(k, first, more + tail, kinds);
  }

  lemma {:induction false} Regroup(a: seq<Byte>, b: seq<Byte>, c: seq<Byte>)
    ensures (a + b) + c == a + (b + c)
  {
  }

  lemma {:induction false} DecodeFirst(k: Kind, first: seq<Byte>, rest: seq<Byte>, kinds: seq<Kind>)
    requires Extent(k, first + rest) == Some(|first|)
    requires ExtentAll(kinds, rest).Some?
    ensures ExtentAll([k] + kinds, first + rest) == Some(|first| + ExtentAll(kinds, rest).value)
    ensures DecodeAll([k] + kinds, first + rest) == [Decode(k, first + rest)] + DecodeAll(kinds, rest)
  {
    var data, all := first + rest, [k] + kinds;
    assert data[|first|..] == rest && all[1..] == kinds && all[0] == k;
  }

  /** Whatever follows in the buffer, reading back with the matching calls yields the fields that were put and
      ends where the writer ended. */
  lemma {:induction false} ListRoundTrip(fields: seq<Field>, tail: seq<Byte>)
    requires AllSendable(fields)
    ensures ExtentAll(KindsOf(fields), EncodeAll(fields) + tail) == Some(|EncodeAll(fields)|)
    ensures DecodeAll(KindsOf(fields), EncodeAll(fields) + tail) == fields
    decreases |fields|
  {
    if fields == [] {
    } else {
      ListRoundTrip(fields[1..], tail);
      ListStep(fields[0], fields[1..], tail);
      assert [fields[0]] + fields[1..] == fields;
    }
  }

  lemma {:induction false} OneMoreField(f: Field, rest: seq<Field>)
    requires Sendable(f) && AllSendable(rest)
    ensures AllSendable([f] + rest) && KindsOf([f] + rest) == [KindOf(f)] + KindsOf(rest)
    ensures EncodeAll([f] + rest) == Encode(f) + EncodeAll(rest)
  {
    assert ([f] + rest)[1..] == rest;
  }

  lemma {:induction false} ListStep(f: Field, rest: seq<Field>, tail: seq<Byte>)
    requires Sendable(f) && AllSendable(rest)
    requires ExtentAll(KindsOf(rest), EncodeAll(rest) + tail) == Some(|EncodeAll(rest)|)
    requires DecodeAll(KindsOf(rest), EncodeAll(rest) + tail) == rest
    ensures AllSendable([f] + rest)
    ensures ExtentAll(KindsOf([f] + rest), EncodeAll([f] + rest) + tail) == Some(|EncodeAll([f] + rest)|)
    ensures DecodeAll(KindsOf([f] + rest), EncodeAll([f] + rest) + tail) == [f] + rest
  {
    OneMoreField(f, rest);
    FieldRoundTrip(f, EncodeAll(rest) + tail);
    DecodeStep(KindOf(f), Encode(f), KindsOf(rest), EncodeAll(rest), tail);
  }

  // ----- the buffer calls -----

  method Memcpy(dst: array<Byte>, at: nat, src: seq<Byte>)
    requires at + |src| <= dst.Length
    modifies dst
    ensures dst[..] == old(dst[..at]) + src + old(dst[at + |src|..])
  {
    for i := 0 to |src|
      invariant dst[..] == old(dst[..at]) + src[..i] + old(dst[at + i..])
    {
      dst[at + i] := src[i];
      assert src[..i + 1] == src[..i] + [src[i]];
    }
    assert src[..|src|] == src;
  }

  method BuffPutInt(input: int, buff: array<Byte>, offset: nat) returns (next: nat)
    requires IsInt32(input) && offset + 4 <= buff.Length
    modifies buff
    ensures next == offset + 4
    ensures buff[..] == old(buff[..offset]) + EncodeInt(input) + old(buff[next..])
  {
    Memcpy(buff, offset, EncodeInt(input));
    next := offset + 4;
  }

  method BuffPutBinary(input: seq<Byte>, buff: array<Byte>, offset: nat) returns (next: nat)
    requires IsInt32(|input|) && offset + 4 + |input| <= buff.Length
    modifies buff
    ensures next == offset + 4 + |input|
    ensures buff[..] == old(buff[..offset]) + (EncodeInt(|input|) + input) + old(buff[next..])
  {
    ghost var before := buff[..];
    next := BuffPutInt(|input|, buff, offset);
    assert buff[..offset] == before[..offset] && buff[offset..next] == EncodeInt(|input|);
    assert buff[next + |input|..] == before[next + |input|..];
    Memcpy(buff, next, input);
    next := next + |input|;
  }

  method BuffPutString(str: seq<Byte>, buff: array<Byte>, offset: nat) returns (next: nat)
    requires 0 !in str && IsInt32(|str| + 1) && offset + 5 + |str| <= buff.Length
    modifies buff
    ensures next == offset + 5 + |str|
    ensures buff[..] == old(buff[..offset]) + (EncodeInt(|str| + 1) + (str + [0])) + old(buff[next..])
  {
    next := BuffPutBinary(str + [0], buff, offset);
  }

  method BuffPutStruct(input: seq<Byte>, buff: array<Byte>, offset: nat) returns (next: nat)
    requires offset + |input| <= buff.Length
    modifies buff
    ensures next == offset + |input|
    ensures buff[..] == old(buff[..offset]) + input + old(buff[next..])
  {
    Memcpy(buff, offset, input);
    next := offset + |input|;
  }

  method BuffGetInt(buff: array<Byte>, offset: nat) returns (r: int, next: nat)
    requires offset + 4 <= buff.Length
    ensures r == DecodeInt(buff[offset..offset + 4]) && next == offset + 4
  {
    r := DecodeInt([buff[offset], buff[offset + 1], buff[offset + 2], buff[offset + 3]]);
    assert [buff[offset], buff[offset + 1], buff[offset + 2], buff[offset + 3]] == buff[offset..offset + 4];
    next := offset + 4;
  }

  // buff_get_binary and buff_get_string: both copy as many bytes as the length says, a string with its NUL
  method BuffGetBytes(buff: array<Byte>, offset: nat) returns (output: seq<Byte>, next: nat)
    requires offset <= buff.Length && Extent(BinKind, buff[..][offset..]).Some?
    ensures offset + 4 <= next == offset + Extent(BinKind, buff[..][offset..]).value <= buff.Length
    ensures output == buff[offset + 4..next]
  {
    var data := buff[..][offset..];
    assert data[..4] == buff[offset..offset + 4];
    var len;
    len, next := BuffGetInt(buff, offset);
    output := buff[next..next + len];
    next := next + len;
  }

  method BuffGetStruct(size: nat, buff: array<Byte>, offset: nat) returns (output: seq<Byte>, next: nat)
    requires offset + size <= buff.Length
    ensures output == buff[offset..offset + size] && next == offset + size
  {
    output := buff[offset..offset + size];
    next := offset + size;
  }

  method PutField(f: Field, buff: array<Byte>, offset: nat) returns (next: nat)
    requires Sendable(f) && offset + |Encode(f)| <= buff.Length
    modifies buff
    ensures next == offset + |Encode(f)|
    ensures buff[..] == old(buff[..offset]) + Encode(f) + old(buff[next..])
  {
    match f {
      case Int(i) => next := BuffPutInt(i, buff, offset);
      case Str(s) => next := BuffPutString(s, buff, offset);
      case Bin(b) => next := BuffPutBinary(b, buff, offset);
      case Struct(d) => next := BuffPutStruct(d, buff, offset);
    }
  }

  lemma {:induction false} Window(all: seq<Byte>, offset: nat, a: nat, b: nat)
    requires a <= b && offset + b <= |all|
    ensures all[offset..][a..b] == all[offset + a..offset + b]
  {
  }

  method GetField(k: Kind, buff: array<Byte>, offset: nat) returns (f: Field, next: nat)
    requires offset <= buff.Length && Extent(k, buff[..][offset..]).Some?
    ensures f == Decode(k, buff[..][offset..])
    ensures next == offset + Extent(k, buff[..][offset..]).value <= buff.Length
  {
    ghost var data := buff[..][offset..];
    match k {
      case IntKind =>
        var i;
        i, next := BuffGetInt(buff, offset);
        Window(buff[..], offset, 0, 4);
        f := Int(i);
      case StrKind =>
        var bytes;
        bytes, next := BuffGetBytes(buff, offset);
        Window(buff[..], offset, 4, next - offset - 1);
        f := Str(bytes[..|bytes| - 1]);
      case BinKind =>
        var bytes;
        bytes, next := BuffGetBytes(buff, offset);
        Window(buff[..], offset, 4, next - offset);
        f := Bin(bytes);
      case StructKind(size) =>
        var d;
        d, next := BuffGetStruct(size, buff, offset);
        Window(buff[..], offset, 0, size);
        f := Struct(d);
    }
  }

  // a message written by consecutive put calls
  method PutFields(fields: seq<Field>, buff: array<Byte>, offset: nat) returns (next: nat)
    requires AllSendable(fields) && offset + |EncodeAll(fields)| <= buff.Length
    modifies buff
    ensures next == offset + |EncodeAll(fields)|
    ensures buff[..] == old(buff[..offset]) + EncodeAll(fields) + old(buff[next..])
    decreases |fields|
  {
    ghost var before := buff[..];
    if fields == [] {
      return offset;
    }
    var middle := PutField(fields[0], buff, offset);
    ghost var between := buff[..];
    next := PutFields(fields[1..], buff, middle);
    Splice(before, between, buff[..], offset, Encode(fields[0]), EncodeAll(fields[1..]));
  }

  // one piece of text put behind another
  lemma {:induction false} Splice(before: seq<Byte>, between: seq<Byte>, after: seq<Byte>, offset: nat,
                                  a: seq<Byte>, b: seq<Byte>)
    requires offset + |a| + |b| <= |before|
    requires between == before[..offset] + a + before[offset + |a|..]
    requires after == between[..offset + |a|] + b + between[offset + |a| + |b|..]
    ensures after == before[..offset] + (a + b) + before[offset + |a| + |b|..]
  {
    assert between[..offset + |a|] == before[..offset] + a;
    assert between[offset + |a| + |b|..] == before[offset + |a| + |b|..];
  }

  // the same message read by consecutive get calls
  method GetFields(kinds: seq<Kind>, buff: array<Byte>, offset: nat) returns (fields: seq<Field>, next: nat)
    requires offset <= buff.Length && ExtentAll(kinds, buff[..][offset..]).Some?
    ensures fields == DecodeAll(kinds, buff[..][offset..])
    ensures next == offset + ExtentAll(kinds, buff[..][offset..]).value
    decreases |kinds|
  {
    if kinds == [] {
      return [], offset;
    }
    var f, middle := GetField(kinds[0], buff, offset);
    assert buff[..][offset..][middle - offset..] == buff[..][middle..];
    var rest;
    rest, next := GetFields(kinds[1..], buff, middle);
    fields := [f] + rest;
  }

  /** Any list of fields that fits the buffer comes back as it was put, with the same final offset, and no byte
      before or behind the message is touched. */
  method SendAndReceive(fields: seq<Field>, buff: array<Byte>, offset: nat)
    returns (received: seq<Field>, written: nat, read: nat)
    requires AllSendable(fields) && offset + |EncodeAll(fields)| <= buff.Length
    modifies buff
    ensures received == fields
    ensures read == written == offset + |EncodeAll(fields)|
    ensures buff[..offset] == old(buff[..offset]) && buff[written..] == old(buff[written..])
  {
    ghost var before := buff[..];
    written := PutFields(fields, buff, offset);
    assert buff[..][offset..] == EncodeAll(fields) + before[written..];
    ListRoundTrip(fields, before[written..]);
    received, read := GetFields(KindsOf(fields), buff, offset);
  }
}
