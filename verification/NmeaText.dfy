/** Satellites and fixes printed as NMEA 0183 sentences, read back, and reported. */
module NmeaText {
  import opened CommaText
  import NmeaTokens
  import NmeaFraming
  import opened SatelliteView
  import opened NmeaPipeline

  // two characters the parser does not look at
  type Checksum = s: string | |s| == 2 && '\n' !in s witness "00"

  // ----- one sentence -----

  // a sentence without its newline
  function LineOf(fields: seq<string>, check: Checksum): string {
    "$" + Join(fields) + "*" + check + "\r"
  }

  predicate Fields(fields: seq<string>) {
    0 < |fields| <= NmeaTokens.MAX_NMEA_TOKENS && CommaFree(fields) && |fields[0]| == 5
  }

  lemma {:induction false} LineTexts(fields: seq<string>, check: Checksum)
    requires Fields(fields)
    ensures var line := LineOf(fields, check) + "\n";
      |line| >= 9 && NmeaTokens.Texts(line) == NmeaTokens.WithoutLastEmpty(fields)
  {
    assert LineOf(fields, check) + "\n" == "$" + Join(fields) + ['*', check[0], check[1], '\r', '\n'];
    NmeaTokens.TokensOfSentence(fields, check[0], check[1]);
    JoinSplit(fields[0], fields[1..]);
    assert fields == [fields[0]] + fields[1..];
  }

  lemma {:induction false} SameGet(fields: seq<string>, k: int)
    requires fields != []
    ensures NmeaTokens.Get(NmeaTokens.WithoutLastEmpty(fields), k) == NmeaTokens.Get(fields, k)
  {
  }

  lemma {:induction false} SameGsv(fields: seq<string>, beidou: bool)
    requires fields != []
    ensures GsvOf(NmeaTokens.WithoutLastEmpty(fields), beidou) == GsvOf(fields, beidou)
  {
    var texts := NmeaTokens.WithoutLastEmpty(fields);
    forall k: int ensures NmeaTokens.Get(texts, k) == NmeaTokens.Get(fields, k) {
      SameGet(fields, k);
    }
    assert GsvOf(texts, beidou).slots == GsvOf(fields, beidou).slots;
  }

  lemma {:induction false} SameGsa(fields: seq<string>, beidou: bool)
    requires fields != []
    ensures GsaOf(NmeaTokens.WithoutLastEmpty(fields), beidou) == GsaOf(fields, beidou)
  {
    var texts := NmeaTokens.WithoutLastEmpty(fields);
    forall k: int ensures NmeaTokens.Get(texts, k) == NmeaTokens.Get(fields, k) {
      SameGet(fields, k);
    }
    assert seq(12, k requires 0 <= k < 12 => NmeaTokens.Get(texts, k + 3))
        == seq(12, k requires 0 <= k < 12 => NmeaTokens.Get(fields, k + 3));
  }

  /** A GSV sentence is read as the message its fields carry; the satellite numbers of talker BD start at 200. */
  lemma {:induction false} GsvLineReads(fields: seq<string>, check: Checksum, end: bool)
    requires Fields(fields) && fields[0][2..] == "GSV"
    ensures EventOf(LineOf(fields, check) + "\n", end)
         == Event(GsvSentence(GsvOf(fields, fields[0][..2] == "BD")), end)
  {
    LineTexts(fields, check);
    SameGsv(fields, fields[0][..2] == "BD");
    SentenceId(fields[0]);
  }

  /** A GSA sentence is read as its mode and the satellite numbers in front of the first empty field. */
  lemma {:induction false} GsaLineReads(fields: seq<string>, check: Checksum, end: bool)
    requires Fields(fields) && IsGsa(fields[0])
    ensures EventOf(LineOf(fields, check) + "\n", end) == Event(GsaOf(fields, fields[0][..2] == "BD"), end)
  {
    LineTexts(fields, check);
    SameGsa(fields, fields[0][..2] == "BD");
    SentenceId(fields[0]);
  }

  lemma {:induction false} OtherLineReads(fields: seq<string>, check: Checksum, end: bool)
    requires Fields(fields) && fields[0][2..] != "GSV" && !IsGsa(fields[0])
    ensures EventOf(LineOf(fields, check) + "\n", end) == Event(OtherSentence, end)
  {
    LineTexts(fields, check);
    SentenceId(fields[0]);
  }

  lemma {:induction false} SentenceId(id: string)
    requires |id| == 5
    ensures id[..5] == id && id[2..5] == id[2..]
    ensures id[2..] == "GSV" ==> id[2..5] != "GGA" && id[2..5] != "RMC" && !IsGsa(id)
    ensures IsGsa(id) ==> id[2..5] != "GGA"
  {
    assert id[2..5] == id[2..];
    assert id[2..][0] == id[2] && id[2..][1] == id[3] && id[2..][2] == id[4];
  }

  // ----- what can be said -----

  datatype Said =
    | InView(talker: string, sats: seq<Slot>)
    | Active(talker: string, fixMode: int, ids: seq<int>, dilution: seq<string>)
    | Other(fields: seq<string>)

  predicate Sayable(x: Said) {
    match x
    case InView(talker, sats) => |talker| == 2 && ',' !in talker && forall s :: s in sats ==> ',' !in s.data.snr
    case Active(talker, _, ids, dilution) =>
      IsGsa(talker + "GSA") && |ids| <= 12 && |dilution| <= 9 && CommaFree(dilution)
    case Other(fields) => Fields(fields) && fields[0][2..] != "GSV" && !IsGsa(fields[0])
  }

  function Base(talker: string): int {
    if talker == "BD" then 200 else 0
  }

  lemma {:induction false} SignedReads(n: int)
    ensures NmeaTokens.Number(NmeaTokens.Signed(n)) == n && NmeaTokens.Signed(n) != "" && ',' !in NmeaTokens.Signed(n)
  {
    var m: nat := if n < 0 then -n else n;
    NmeaTokens.NumberRoundTrip(m);
    NmeaTokens.DecimalValue(m);
    assert ',' !in NmeaTokens.Decimal(m);
  }

  // ----- satellites in GSV sentences, four in each -----

  function SatFields(s: Slot, base: int): seq<string> {
    [NmeaTokens.Signed(s.id - base), NmeaTokens.Signed(s.data.elevation), NmeaTokens.Signed(s.data.azimuth), s.data.snr]
  }

  function AllSatFields(sats: seq<Slot>, base: int): (r: seq<string>)
    ensures |r| == 4 * |sats|
  {
    if sats == [] then [] else SatFields(sats[0], base) + AllSatFields(sats[1..], base)
  }

  lemma {:induction false} BehindFour(first: seq<string>, rest: seq<string>, k: nat)
    requires |first| == 4 && 4 <= k < 4 + |rest|
    ensures (first + rest)[k] == rest[k - 4]
  {
  }

  lemma {:induction false} SatFieldAt(sats: seq<Slot>, base: int, j: nat, i: nat)
    requires j < |sats| && i < 4
    ensures AllSatFields(sats, base)[4 * j + i] == SatFields(sats[j], base)[i]
  {
    if j == 0 {
    } else {
      assert sats[1..][j - 1] == sats[j];
      SatFieldAt(sats[1..], base, j - 1, i);
      BehindFour(SatFields(sats[0], base), AllSatFields(sats[1..], base), 4 * j + i);
    }
  }

  lemma {:induction false} SatFieldsCommaFree(sats: seq<Slot>, base: int)
    requires forall s :: s in sats ==> ',' !in s.data.snr
    ensures CommaFree(AllSatFields(sats, base))
  {
    if sats == [] {
    } else {
      var s := sats[0];
      assert s in sats;
      SignedReads(s.id - base);
      SignedReads(s.data.elevation);
      SignedReads(s.data.azimuth);
      SatFieldsCommaFree(sats[1..], base);
    }
  }

  // an empty group takes one sentence as well
  function Messages(sats: seq<Slot>): nat {
    if |sats| <= 4 then 1 else (|sats| + 3) / 4
  }

  function UpTo(sats: seq<Slot>, k: nat): nat {
    if 4 * k <= |sats| then 4 * k else |sats|
  }

  function Chunk(sats: seq<Slot>, k: nat): seq<Slot> {
    sats[UpTo(sats, k)..UpTo(sats, k + 1)]
  }

  function GsvHeader(talker: string, sats: seq<Slot>, k: nat): seq<string> {
    [talker + "GSV", NmeaTokens.Decimal(Messages(sats)), NmeaTokens.Decimal(k + 1), NmeaTokens.Decimal(|sats|)]
  }

  function GsvFields(talker: string, sats: seq<Slot>, k: nat): seq<string> {
    GsvHeader(talker, sats, k) + AllSatFields(Chunk(sats, k), Base(talker))
  }

  // the slots a sentence with fewer than four satellites fills with nothing
  function Padded(chunk: seq<Slot>, base: int): seq<Slot> {
    seq(PER_MESSAGE, j requires 0 <= j < PER_MESSAGE => if j < |chunk| then chunk[j] else Slot(base, Data(0, 0, "")))
  }

  function GroupOf(talker: string, sats: seq<Slot>, end: bool): Item {
    Group(|sats|,
          seq(Messages(sats), k requires 0 <= k < Messages(sats) => Padded(Chunk(sats, k), Base(talker))), end)
  }

  lemma {:induction false} DecimalReads(n: nat)
    ensures NmeaTokens.Number(NmeaTokens.Decimal(n)) == n && ',' !in NmeaTokens.Decimal(n)
  {
    SignedReads(n);
  }

  // field i of satellite j, behind the four fields of the header
  lemma {:induction false} FieldReads(header: seq<string>, chunk: seq<Slot>, base: int, j: nat, i: nat)
    requires |header| == 4 && |chunk| <= 4 && j < 4 && i < 4
    ensures NmeaTokens.Get(header + AllSatFields(chunk, base), 4 * (j + 1) + i)
         == if j < |chunk| then SatFields(chunk[j], base)[i] else ""
  {
    if j < |chunk| {
      SatFieldAt(chunk, base, j, i);
    }
  }

  lemma {:induction false} SlotOfTexts(texts: seq<string>, beidou: bool, j: nat, f: seq<string>)
    requires |f| == 4 && forall i :: 0 <= i < 4 ==> NmeaTokens.Get(texts, 4 * (j + 1) + i) == f[i]
    ensures SlotOf(texts, beidou, j)
         == Slot(IdOf(f[0], beidou), Data(NmeaTokens.Number(f[1]), NmeaTokens.Number(f[2]), f[3]))
  {
    assert NmeaTokens.Get(texts, 4 * (j + 1) + 0) == f[0] && NmeaTokens.Get(texts, 4 * (j + 1) + 1) == f[1];
    assert NmeaTokens.Get(texts, 4 * (j + 1) + 2) == f[2] && NmeaTokens.Get(texts, 4 * (j + 1) + 3) == f[3];
  }

  lemma {:induction false} EmptyReads()
    ensures NmeaTokens.Number("") == 0
  {
  }

  lemma {:induction false} SlotReads(header: seq<string>, chunk: seq<Slot>, beidou: bool, j: nat)
    requires |header| == 4 && |chunk| <= 4 && j < 4
    ensures var base := if beidou then 200 else 0;
      SlotOf(header + AllSatFields(chunk, base), beidou, j) == Padded(chunk, base)[j]
  {
    var base := if beidou then 200 else 0;
    var f := if j < |chunk| then SatFields(chunk[j], base) else ["", "", "", ""];
    var texts := header + AllSatFields(chunk, base);
    forall i | 0 <= i < 4 ensures NmeaTokens.Get(texts, 4 * (j + 1) + i) == f[i] {
      FieldReads(header, chunk, base, j, i);
    }
    SlotOfTexts(texts, beidou, j, f);
    EmptyReads();
    if j < |chunk| {
      SlotOfFields(chunk[j], base);
    }
  }

  lemma {:induction false} SlotOfFields(s: Slot, base: int)
    ensures var f := SatFields(s, base);
      && NmeaTokens.Number(f[0]) + base == s.id && NmeaTokens.Number(f[1]) == s.data.elevation
      && NmeaTokens.Number(f[2]) == s.data.azimuth && f[3] == s.data.snr
  {
    SignedReads(s.id - base);
    SignedReads(s.data.elevation);
    SignedReads(s.data.azimuth);
  }

  lemma {:induction false} GsvSentenceFields(talker: string, sats: seq<Slot>, k: nat)
    requires Sayable(InView(talker, sats)) && k < Messages(sats)
    ensures var fields := GsvFields(talker, sats, k);
      Fields(fields) && fields[0][2..] == "GSV" && fields[0][..2] == talker
  {
    var header, rest := GsvHeader(talker, sats, k), AllSatFields(Chunk(sats, k), Base(talker));
    HeaderCommaFree(talker, sats, k);
    SatFieldsCommaFree(Chunk(sats, k), Base(talker));
    CommaFreeConcat(header, rest);
    assert |Chunk(sats, k)| <= 4 && (header + rest)[0] == header[0];
    TalkerAndKind(talker);
  }

  lemma {:induction false} TalkerAndKind(talker: string)
    requires |talker| == 2
    ensures var id := talker + "GSV"; |id| == 5 && id[..2] == talker && id[2..] == "GSV"
  {
  }

  lemma {:induction false} HeaderCommaFree(talker: string, sats: seq<Slot>, k: nat)
    requires ',' !in talker
    ensures CommaFree(GsvHeader(talker, sats, k))
  {
    DecimalReads(Messages(sats));
    DecimalReads(k + 1);
    DecimalReads(|sats|);
    assert ',' !in talker + "GSV";
  }

  lemma {:induction false} GsvSlots(header: seq<string>, chunk: seq<Slot>, beidou: bool)
    requires |header| == 4 && |chunk| <= 4
    ensures var base := if beidou then 200 else 0;
      GsvOf(header + AllSatFields(chunk, base), beidou).slots == Padded(chunk, base)
  {
    var base := if beidou then 200 else 0;
    var texts, padded := header + AllSatFields(chunk, base), Padded(chunk, base);
    forall j | 0 <= j < 4 ensures SlotOf(texts, beidou, j) == padded[j] {
      SlotReads(header, chunk, beidou, j);
    }
  }

  lemma {:induction false} GsvCounts(header: seq<string>, rest: seq<string>, num: nat, seqNo: nat, cnt: nat,
                                     beidou: bool)
    requires |header| == 4 && header[1] == NmeaTokens.Decimal(num)
    requires header[2] == NmeaTokens.Decimal(seqNo) && header[3] == NmeaTokens.Decimal(cnt)
    ensures var m := GsvOf(header + rest, beidou); m.num == num && m.seqNo == seqNo && m.cnt == cnt
  {
    DecimalReads(num);
    DecimalReads(seqNo);
    DecimalReads(cnt);
  }

  /** Sentence k of a group is read as message k with its four satellites. */
  lemma {:induction false} GsvMessageReads(talker: string, sats: seq<Slot>, k: nat, end: bool)
    requires Sayable(InView(talker, sats)) && k < Messages(sats)
    ensures var fields := GsvFields(talker, sats, k);
      Fields(fields) && fields[0][2..] == "GSV" && (fields[0][..2] == "BD" <==> talker == "BD")
      && GsvOf(fields, talker == "BD") == MessageOf(GroupOf(talker, sats, end), k)
  {
    var header, rest := GsvHeader(talker, sats, k), AllSatFields(Chunk(sats, k), Base(talker));
    GsvSentenceFields(talker, sats, k);
    GsvSlots(header, Chunk(sats, k), talker == "BD");
    GsvCounts(header, rest, Messages(sats), k + 1, |sats|, talker == "BD");
  }

  // ----- satellites used, in a GSA sentence -----

  function IdFields(ids: seq<int>, base: int): (r: seq<string>)
    ensures |r| == |ids|
  {
    seq(|ids|, k requires 0 <= k < |ids| => NmeaTokens.Signed(ids[k] - base))
  }

  function GsaFields(talker: string, fixMode: int, ids: seq<int>, dilution: seq<string>): seq<string>
    requires |ids| <= 12
  {
    [talker + "GSA", "A", NmeaTokens.Signed(fixMode)] + IdFields(ids, Base(talker)) + seq(12 - |ids|, _ => "")
      + dilution
  }

  // the fields spell the numbers, and an empty one follows
  predicate SpellIds(fields: seq<string>, ids: seq<int>, base: int) {
    && |ids| <= |fields| && (|ids| < |fields| ==> fields[|ids|] == "")
    && forall i :: 0 <= i < |ids| ==> fields[i] == NmeaTokens.Signed(ids[i] - base)
  }

  lemma {:induction false} IdReads(fields: seq<string>, ids: seq<int>, beidou: bool, k: nat)
    requires k < |ids| && SpellIds(fields, ids, if beidou then 200 else 0)
    ensures fields[k] != "" && IdOf(fields[k], beidou) == ids[k]
  {
    SignedReads(ids[k] - (if beidou then 200 else 0));
  }

  lemma {:induction false} NextId(fields: seq<string>, beidou: bool, k: nat)
    requires k < |fields| && fields[k] != ""
    ensures Ids(fields, beidou, k) == [IdOf(fields[k], beidou)] + Ids(fields, beidou, k + 1)
  {
  }

  lemma {:induction false} NoMoreIds(fields: seq<string>, beidou: bool, k: nat)
    requires k <= |fields| && (k < |fields| ==> fields[k] == "")
    ensures Ids(fields, beidou, k) == []
  {
  }

  lemma {:induction false} FromOn(ids: seq<int>, k: nat)
    requires k < |ids|
    ensures ids[k..] == [ids[k]] + ids[k + 1..]
  {
  }

  lemma {:induction false} IdsRead(fields: seq<string>, ids: seq<int>, beidou: bool, k: nat)
    requires k <= |ids| && SpellIds(fields, ids, if beidou then 200 else 0)
    ensures Ids(fields, beidou, k) == ids[k..]
    decreases |ids| - k
  {
    if k == |ids| {
      NoMoreIds(fields, beidou, k);
    } else {
      IdReads(fields, ids, beidou, k);
      NextId(fields, beidou, k);
      IdsRead(fields, ids, beidou, k + 1);
      FromOn(ids, k);
    }
  }

  lemma {:induction false} IdFieldsCommaFree(ids: seq<int>, base: int)
    ensures CommaFree(IdFields(ids, base))
  {
    var fields := IdFields(ids, base);
    forall k | 0 <= k < |fields| ensures ',' !in fields[k] {
      SignedReads(ids[k] - base);
    }
    EachCommaFree(fields);
  }

  lemma {:induction false} EachCommaFree(fields: seq<string>)
    requires forall k :: 0 <= k < |fields| ==> ',' !in fields[k]
    ensures CommaFree(fields)
  {
  }

  lemma {:induction false} CommaFreeConcat(a: seq<string>, b: seq<string>)
    requires CommaFree(a) && CommaFree(b)
    ensures CommaFree(a + b)
  {
  }

  lemma {:induction false} GsaFieldsCommaFree(talker: string, fixMode: int, ids: seq<int>, dilution: seq<string>)
    requires ',' !in talker && |ids| <= 12 && CommaFree(dilution)
    ensures CommaFree(GsaFields(talker, fixMode, ids, dilution))
  {
    var header, empty: seq<string> := [talker + "GSA", "A", NmeaTokens.Signed(fixMode)], seq(12 - |ids|, _ => "");
    SignedReads(fixMode);
    IdFieldsCommaFree(ids, Base(talker));
    CommaFreeConcat(header, IdFields(ids, Base(talker)));
    CommaFreeConcat(header + IdFields(ids, Base(talker)), empty);
    CommaFreeConcat(header + IdFields(ids, Base(talker)) + empty, dilution);
  }

  // the twelve fields behind the mode
  lemma {:induction false} TwelveFields(talker: string, fixMode: int, ids: seq<int>, dilution: seq<string>)
    requires |ids| <= 12
    ensures var fields := GsaFields(talker, fixMode, ids, dilution);
      && NmeaTokens.Get(fields, 2) == NmeaTokens.Signed(fixMode)
      && seq(12, k requires 0 <= k < 12 => NmeaTokens.Get(fields, k + 3))
         == IdFields(ids, Base(talker)) + seq(12 - |ids|, _ => "")
  {
  }

  lemma {:induction false} GsaValues(talker: string, fixMode: int, ids: seq<int>, dilution: seq<string>)
    requires |ids| <= 12
    ensures GsaOf(GsaFields(talker, fixMode, ids, dilution), talker == "BD") == GsaSentence(fixMode, ids)
  {
    TwelveFields(talker, fixMode, ids, dilution);
    SignedReads(fixMode);
    PaddedIdsRead(talker, ids);
  }

  lemma {:induction false} PaddedIdsRead(talker: string, ids: seq<int>)
    requires |ids| <= 12
    ensures Ids(IdFields(ids, Base(talker)) + seq(12 - |ids|, _ => ""), talker == "BD", 0) == ids
  {
    IdsRead(IdFields(ids, Base(talker)) + seq(12 - |ids|, _ => ""), ids, talker == "BD", 0);
    assert ids[0..] == ids;
  }

  /** A printed GSA sentence is read as the mode and the satellites printed. */
  lemma {:induction false} GsaReads(talker: string, fixMode: int, ids: seq<int>, dilution: seq<string>)
    requires Sayable(Active(talker, fixMode, ids, dilution))
    ensures var fields := GsaFields(talker, fixMode, ids, dilution);
      Fields(fields) && IsGsa(fields[0]) && (fields[0][..2] == "BD" <==> talker == "BD")
      && GsaOf(fields, talker == "BD") == GsaSentence(fixMode, ids)
  {
    TalkerOfGsa(talker);
    GsaFieldsCommaFree(talker, fixMode, ids, dilution);
    GsaValues(talker, fixMode, ids, dilution);
    assert (talker + "GSA")[..2] == talker;
  }

  lemma {:induction false} TalkerOfGsa(talker: string)
    requires IsGsa(talker + "GSA")
    ensures |talker| == 2 && ',' !in talker
  {
    assert |talker + "GSA"| == 5;
    assert talker == (talker + "GSA")[..2];
  }

  // ----- batches -----

  function Printed(x: Said): seq<seq<string>>
    requires Sayable(x)
  {
    match x
    case InView(talker, sats) => seq(Messages(sats), k requires 0 <= k < Messages(sats) => GsvFields(talker, sats, k))
    case Active(talker, fixMode, ids, dilution) => [GsaFields(talker, fixMode, ids, dilution)]
    case Other(fields) => [fields]
  }

  function ItemOf(x: Said, end: bool): Item {
    match x
    case InView(talker, sats) => GroupOf(talker, sats, end)
    case Active(_, fixMode, ids, _) => Between(GsaSentence(fixMode, ids), end)
    case Other(_) => Between(OtherSentence, end)
  }

  function LinesOf(printed: seq<seq<string>>, check: seq<string> -> Checksum): seq<string> {
    seq(|printed|, k requires 0 <= k < |printed| => LineOf(printed[k], check(printed[k])))
  }

  predicate AllSayable(batch: seq<Said>) {
    batch == [] || (Sayable(batch[0]) && AllSayable(batch[1..]))
  }

  function BatchLines(batch: seq<Said>, check: seq<string> -> Checksum): seq<string>
    requires AllSayable(batch)
  {
    if batch == [] then [] else LinesOf(Printed(batch[0]), check) + BatchLines(batch[1..], check)
  }

  // only the last sentence ends the batch
  function BatchItems(batch: seq<Said>): seq<Item> {
    if batch == [] then [] else [ItemOf(batch[0], |batch| == 1)] + BatchItems(batch[1..])
  }

  lemma {:induction false} GroupEvents(talker: string, sats: seq<Slot>, check: seq<string> -> Checksum, end: bool,
                                       k: nat)
    requires Sayable(InView(talker, sats)) && k <= Messages(sats)
    ensures EventsOfLines(Framed(LinesOf(Printed(InView(talker, sats)), check))[k..], end)
         == MessagesFrom(GroupOf(talker, sats, end), k)
    decreases Messages(sats) - k
  {
    var lines := Framed(LinesOf(Printed(InView(talker, sats)), check));
    if k == Messages(sats) {
    } else {
      var fields := GsvFields(talker, sats, k);
      GsvMessageReads(talker, sats, k, end);
      GsvLineReads(fields, check(fields), end && k == Messages(sats) - 1);
      GroupEvents(talker, sats, check, end, k + 1);
      assert lines[k..][0] == LineOf(fields, check(fields)) + "\n" && lines[k..][1..] == lines[k + 1..];
    }
  }

  lemma {:induction false} SaidEvents(x: Said, check: seq<string> -> Checksum, end: bool)
    requires Sayable(x)
    ensures EventsOfLines(Framed(LinesOf(Printed(x), check)), end) == EventsOf(ItemOf(x, end))
  {
    var lines := Framed(LinesOf(Printed(x), check));
    match x {
      case InView(talker, sats) =>
        GroupEvents(talker, sats, check, end, 0);
        assert lines[0..] == lines;
      case Active(talker, fixMode, ids, dilution) =>
        var fields := Printed(x)[0];
        GsaReads(talker, fixMode, ids, dilution);
        GsaLineReads(fields, check(fields), end);
        assert lines == [LineOf(fields, check(fields)) + "\n"] && lines[1..] == [];
      case Other(fields) =>
        OtherLineReads(fields, check(fields), end);
        assert lines == [LineOf(fields, check(fields)) + "\n"] && lines[1..] == [];
    }
  }

  lemma {:induction false} FirstLine(line: string, rest: seq<string>, end: bool)
    ensures EventsOfLines([line] + rest, end) == [EventOf(line, end && rest == [])] + EventsOfLines(rest, end)
  {
    assert ([line] + rest)[1..] == rest;
  }

  lemma {:induction false} EventsInFront(e: Event, a: seq<Event>, b: seq<Event>)
    ensures [e] + (a + b) == ([e] + a) + b
  {
  }

  lemma {:induction false} LinesInFront(first: seq<string>, rest: seq<string>, end: bool)
    requires rest != []
    ensures EventsOfLines(first + rest, end) == EventsOfLines(first, false) + EventsOfLines(rest, end)
  {
    if first == [] {
      assert first + rest == rest;
    } else {
      var line, more := first[0], first[1..];
      assert first == [line] + more && first + rest == [line] + (more + rest);
      LinesInFront(more, rest, end);
      FirstLine(line, more + rest, end);
      FirstLine(line, more, false);
      EventsInFront(EventOf(line, false), EventsOfLines(more, false), EventsOfLines(rest, end));
    }
  }

  lemma {:induction false} SomeLines(batch: seq<Said>, check: seq<string> -> Checksum)
    requires AllSayable(batch) && batch != []
    ensures BatchLines(batch, check) != []
  {
    assert Printed(batch[0]) != [];
  }

  lemma {:induction false} FramedConcat(a: seq<string>, b: seq<string>)
    ensures Framed(a + b) == Framed(a) + Framed(b)
  {
  }

  lemma {:induction false} StreamFirst(i: Item, rest: seq<Item>)
    ensures Stream([i] + rest) == EventsOf(i) + Stream(rest)
  {
    assert ([i] + rest)[1..] == rest;
  }

  lemma {:induction false} BatchIsItems(batch: seq<Said>, check: seq<string> -> Checksum)
    requires AllSayable(batch)
    ensures EventsOfLines(Framed(BatchLines(batch, check)), true) == Stream(BatchItems(batch))
  {
    if batch == [] {
    } else {
      var first, rest := LinesOf(Printed(batch[0]), check), BatchLines(batch[1..], check);
      FramedConcat(first, rest);
      SaidEvents(batch[0], check, |batch| == 1);
      BatchIsItems(batch[1..], check);
      StreamFirst(ItemOf(batch[0], |batch| == 1), BatchItems(batch[1..]));
      FirstOfBatch(Framed(first), Framed(rest), batch, check);
    }
  }

  lemma {:induction false} FirstOfBatch(first: seq<string>, rest: seq<string>, batch: seq<Said>,
                                        check: seq<string> -> Checksum)
    requires batch != [] && AllSayable(batch) && rest == Framed(BatchLines(batch[1..], check))
    ensures EventsOfLines(first + rest, true) == EventsOfLines(first, |batch| == 1) + EventsOfLines(rest, true)
  {
    if |batch| == 1 {
      assert rest == [] && first + rest == first;
    } else {
      SomeLines(batch[1..], check);
      LinesInFront(first, rest, true);
    }
  }

  predicate Batches(batches: seq<seq<Said>>) {
    batches == [] || (batches[0] != [] && AllSayable(batches[0]) && Batches(batches[1..]))
  }

  function AllLines(batches: seq<seq<Said>>, check: seq<string> -> Checksum): (r: seq<seq<string>>)
    requires Batches(batches)
    ensures |r| == |batches|
  {
    if batches == [] then [] else [BatchLines(batches[0], check)] + AllLines(batches[1..], check)
  }

  function Items(batches: seq<seq<Said>>): seq<Item> {
    if batches == [] then [] else BatchItems(batches[0]) + Items(batches[1..])
  }

  lemma {:induction false} StreamConcat(a: seq<Item>, b: seq<Item>)
    ensures Stream(a + b) == Stream(a) + Stream(b)
  {
    if a == [] {
      assert a + b == b;
    } else {
      assert (a + b)[1..] == a[1..] + b;
      StreamConcat(a[1..], b);
    }
  }

  lemma {:induction false} FirstBatchEvents(lines: seq<string>, rest: seq<seq<string>>)
    ensures TextEvents([lines] + rest) == EventsOfLines(Framed(lines), true) + TextEvents(rest)
  {
    assert ([lines] + rest)[1..] == rest;
  }

  lemma {:induction false} LinesAreItems(batches: seq<seq<Said>>, check: seq<string> -> Checksum)
    requires Batches(batches)
    ensures TextEvents(AllLines(batches, check)) == Stream(Items(batches))
  {
    if batches == [] {
    } else {
      BatchIsItems(batches[0], check);
      LinesAreItems(batches[1..], check);
      StreamConcat(BatchItems(batches[0]), Items(batches[1..]));
      FirstBatchEvents(BatchLines(batches[0], check), AllLines(batches[1..], check));
    }
  }

  // ----- what should be reported -----

  function Hear(v: Spec, x: Said): Spec {
    match x
    case InView(_, sats) => v.(pending := Cut(v.pending + AcceptedOf(sats, v.used)))
    case Active(_, fixMode, ids, _) => if fixMode == 2 || fixMode == 3 then v.(used := Marked(v.used, ids)) else v
    case Other(_) => v
  }

  function HearAll(v: Spec, batch: seq<Said>): Spec
    decreases |batch|
  {
    if batch == [] then v else HearAll(Hear(v, batch[0]), batch[1..])
  }

  // one report behind each batch, unless nothing is pending
  function Reported(v: Spec, batches: seq<seq<Said>>): seq<seq<Sat>>
    decreases |batches|
  {
    if batches == [] then [] else
      var w := HearAll(v, batches[0]);
      if w.pending == [] then Reported(w, batches[1..]) else [w.pending] + Reported(Spec([], {}), batches[1..])
  }

  lemma {:induction false} AcceptedConcat(a: seq<Slot>, b: seq<Slot>, used: set<int>)
    ensures AcceptedOf(a + b, used) == AcceptedOf(a, used) + AcceptedOf(b, used)
    decreases |b|
  {
    if b == [] {
      assert a + b == a;
    } else {
      var front := b[..|b| - 1];
      assert (a + b)[..|a + b| - 1] == a + front;
      AcceptedConcat(a, front, used);
    }
  }

  lemma {:induction false} GroupOk(talker: string, sats: seq<Slot>, end: bool)
    ensures ItemOk(GroupOf(talker, sats, end))
  {
  }

  // the slots read of message k are the satellites printed
  lemma {:induction false} ChunkRead(talker: string, sats: seq<Slot>, end: bool, k: nat)
    requires k < Messages(sats)
    ensures var g := GroupOf(talker, sats, end); g.parts[k][..SlotsRead(MessageOf(g, k))] == Chunk(sats, k)
    ensures sats[..UpTo(sats, k + 1)] == sats[..UpTo(sats, k)] + Chunk(sats, k)
  {
    var g, chunk := GroupOf(talker, sats, end), Chunk(sats, k);
    assert SlotsRead(MessageOf(g, k)) == |chunk|;
    assert g.parts[k] == Padded(chunk, Base(talker));
  }

  lemma {:induction false} OneMoreMessage(g: Item, k: nat, used: set<int>, read: seq<Slot>)
    requires g.Group? && ItemOk(g) && k < |g.parts| && |g.parts[k]| == PER_MESSAGE
    requires g.parts[k][..SlotsRead(MessageOf(g, k))] == read
    ensures AcceptedBefore(g, k + 1, used) == AcceptedBefore(g, k, used) + AcceptedOf(read, used)
  {
  }

  /** A group accepts exactly the acceptable ones of the satellites printed, in their order. */
  lemma {:induction false} GroupAcceptsAll(talker: string, sats: seq<Slot>, end: bool, k: nat, used: set<int>)
    requires k <= Messages(sats)
    ensures ItemOk(GroupOf(talker, sats, end))
    ensures AcceptedBefore(GroupOf(talker, sats, end), k, used) == AcceptedOf(sats[..UpTo(sats, k)], used)
  {
    var g := GroupOf(talker, sats, end);
    GroupOk(talker, sats, end);
    if k == 0 {
      assert sats[..0] == [];
    } else {
      GroupAcceptsAll(talker, sats, end, k - 1, used);
      ChunkRead(talker, sats, end, k - 1);
      AcceptedConcat(sats[..UpTo(sats, k - 1)], Chunk(sats, k - 1), used);
      OneMoreMessage(g, k - 1, used, Chunk(sats, k - 1));
    }
  }

  lemma {:induction false} HearIsSpec(v: Spec, x: Said, end: bool)
    requires Sayable(x)
    ensures ItemOk(ItemOf(x, end)) && SpecHandle(v, ItemOf(x, end)) == Hear(v, x) && ItemEnd(ItemOf(x, end)) == end
  {
    if x.InView? {
      GroupAcceptsAll(x.talker, x.sats, end, Messages(x.sats), v.used);
      assert x.sats[..UpTo(x.sats, Messages(x.sats))] == x.sats;
    }
  }

  lemma {:induction false} ExpectedFirst(v: Spec, i: Item, rest: seq<Item>)
    requires ItemOk(i) && AllOk(rest)
    ensures AllOk([i] + rest)
    ensures Expected(v, [i] + rest) == ExpectedOf(v, i) + Expected(SpecBehind(v, i), rest)
  {
    assert ([i] + rest)[1..] == rest;
  }

  // the expectation behind the items of a batch, and the rest of the stream
  lemma {:induction false} BatchExpected(v: Spec, batch: seq<Said>, rest: seq<Item>)
    requires AllSayable(batch) && batch != [] && AllOk(rest)
    ensures AllOk(BatchItems(batch) + rest)
    ensures Expected(v, BatchItems(batch) + rest) ==
      (var w := HearAll(v, batch);
       if w.pending == [] then Expected(w, rest) else [w.pending] + Expected(Spec([], {}), rest))
    decreases |batch|
  {
    var x, more := batch[0], batch[1..];
    HearIsSpec(v, x, |batch| == 1);
    var i, items := ItemOf(x, |batch| == 1), BatchItems(more) + rest;
    assert BatchItems(batch) + rest == [i] + items;
    if more == [] {
      assert items == rest;
    } else {
      BatchExpected(Hear(v, x), more, rest);
    }
    ExpectedFirst(v, i, items);
  }

  lemma {:induction false} ReportedIsExpected(v: Spec, batches: seq<seq<Said>>)
    requires Batches(batches)
    ensures AllOk(Items(batches)) && Expected(v, Items(batches)) == Reported(v, batches)
    decreases |batches|
  {
    if batches == [] {
    } else {
      var w := HearAll(v, batches[0]);
      ReportedIsExpected(if w.pending == [] then w else Spec([], {}), batches[1..]);
      BatchExpected(v, batches[0], Items(batches[1..]));
    }
  }

  /** Satellites printed as sentences, four in each, between GSA sentences and any others, in batches of whole lines
      that fit the buffer: framing, tokenizer and satellite view report behind each batch exactly the acceptable
      satellites printed since the last report, in their order, with the numbers, angles and marks printed, cut at
      GNSS_MAX_SVS. */
  lemma {:induction false} PrintedSatellitesAreReported(blank: Sat, batches: seq<seq<Said>>,
                                                        check: seq<string> -> Checksum)
    requires Batches(batches) && forall lines :: lines in AllLines(batches, check) ==> AllShort(lines)
    ensures var events := StreamEvents(NmeaFraming.FRESH, BatchTexts(AllLines(batches, check)));
      WellFormed(events) && Show(ReportsOf(Start(blank), events), Reported(Spec([], {}), batches))
  {
    LinesAreItems(batches, check);
    ReportedIsExpected(Spec([], {}), batches);
    LinesNotEmpty(batches, check);
    BytesGiveExpectedReports(blank, AllLines(batches, check), Items(batches));
  }

  lemma {:induction false} LinesNotEmpty(batches: seq<seq<Said>>, check: seq<string> -> Checksum)
    requires Batches(batches)
    ensures forall lines :: lines in AllLines(batches, check) ==> lines != []
  {
    if batches == [] {
    } else {
      SomeLines(batches[0], check);
      LinesNotEmpty(batches[1..], check);
    }
  }
}
