/** The satellite display's NMEA parser: one satellite list and one list of satellites used in the fix for each
    talker, updated sentence by sentence (sentences of NMEA 0183). */
module TalkerView {
  import opened Options
  import NmeaTokens
  import opened JavaText

  datatype Talker = Gp | Gl | Ga | Bd | Unknown
  datatype Kind = Rmc | Gsa | Gga | Gsv | Others
  datatype Sat = Sat(prn: int, usedInFix: bool)

  // ----- reading a sentence -----

  predicate StandsAt(s: string, part: string, i: nat) {
    i + |part| <= |s| && s[i..i + |part|] == part
  }

  predicate Contains(s: string, part: string) {
    exists i: nat :: i <= |s| && StandsAt(s, part, i)
  }

  function Prefix(t: Talker): string {
    match t case Gp => "$GP" case Gl => "$GL" case Ga => "$GA" case Bd => "$BD" case Unknown => "none"
  }

  // the first talker, in the parser's order, whose prefix occurs anywhere in the sentence
  function TalkerOf(record: string): Talker {
    if Contains(record, Prefix(Gp)) then Gp
    else if Contains(record, Prefix(Gl)) then Gl
    else if Contains(record, Prefix(Ga)) then Ga
    else if Contains(record, Prefix(Bd)) then Bd
    else Unknown
  }

  function KindOf(record: string): Kind {
    if Contains(record, "RMC") then Rmc
    else if Contains(record, "GSA") then Gsa
    else if Contains(record, "GGA") then Gga
    else if Contains(record, "GSV") then Gsv
    else Others
  }

  function WithoutZeros(s: string): string {
    if s == "" then "0" else if s[0] == '0' then WithoutZeros(s[1..]) else s
  }

  // a text that is no integer reads as 0
  function ParseInt(s: string): int {
    if s == "" then 0
    else match IntegerOf(WithoutZeros(s)) case Some(v) => v case None => 0
  }

  // splitting such a field at its stars leaves nothing to read
  predicate OnlyStars(s: string) {
    s != "" && forall i :: 0 <= i < |s| ==> s[i] == '*'
  }

  // ----- one talker -----

  datatype Channel = Channel(sats: seq<Sat>, used: seq<int>)

  function Unflagged(sats: seq<Sat>): seq<Sat> {
    seq(|sats|, i requires 0 <= i < |sats| => sats[i].(usedInFix := false))
  }

  function PositiveIn(field: string): seq<int> {
    if ParseInt(field) > 0 then [ParseInt(field)] else []
  }

  // the positive ones among the numbers in the fields
  function Positive(fields: seq<string>): seq<int> {
    if fields == [] then []
    else
      Positive(fields[..|fields| - 1]) + PositiveIn(fields[|fields| - 1])
  }

  predicate HasFix(values: seq<string>) {
    |values| >= 17 && values[2] != "1"
  }

  function AfterGsa(values: seq<string>, c: Channel, t: Talker): Channel {
    Channel(Unflagged(c.sats),
            if !t.Unknown? && HasFix(values) then Positive(values[2..15]) else [])
  }

  // the satellites of a GSV sentence from field lo on, up to the field that cannot be read
  function SatsFrom(values: seq<string>, lo: nat, used: seq<int>): seq<Sat>
    decreases |values| - lo
  {
    if lo + 3 >= |values| || OnlyStars(values[lo + 3]) then []
    else
      var prn := ParseInt(values[lo]);
      (if prn > 0 then [Sat(prn, prn in used)] else []) + SatsFrom(values, lo + 4, used)
  }

  predicate Unreadable(values: seq<string>, lo: nat)
    decreases |values| - lo
  {
    lo + 3 < |values| && (OnlyStars(values[lo + 3]) || Unreadable(values, lo + 4))
  }

  predicate FirstMessage(values: seq<string>)
    requires |values| >= 3
  {
    ParseInt(values[1]) > 0 && ParseInt(values[2]) == 1
  }

  function AfterGsv(values: seq<string>, c: Channel, t: Talker): Channel {
    if t.Unknown? || |values| < 3 then c
    else c.(sats := (if FirstMessage(values) then [] else c.sats) + SatsFrom(values, 4, c.used))
  }

  // ----- all talkers -----

  datatype State = State(kind: Kind, channels: map<Talker, Channel>, notified: nat)

  predicate Total(s: State) {
    forall t: Talker :: t in s.channels
  }

  // whether the sentence touches the talker's lists
  predicate Concerns(record: string, t: Talker) {
    KindOf(record).Gga? || (TalkerOf(record) == t && (KindOf(record).Gsa? || KindOf(record).Gsv?))
  }

  function ChannelAfter(record: string, c: Channel, t: Talker): Channel {
    var values := Split(record, ',');
    if KindOf(record).Gga? then c.(sats := [])
    else if TalkerOf(record) != t then c
    else if KindOf(record).Gsa? then AfterGsa(values, c, t)
    else if KindOf(record).Gsv? then AfterGsv(values, c, t)
    else c
  }

  // whether a missing or unreadable field makes the parser throw, after the lists were changed
  predicate Throws(record: string) {
    var values := Split(record, ',');
    match KindOf(record)
    case Rmc => |values| < 9
    case Gsa => !TalkerOf(record).Unknown? && |values| == 17 && HasFix(values)
    case Gga => |values| < 10
    case Gsv => !TalkerOf(record).Unknown? && (|values| < 3 || Unreadable(values, 4))
    case Others => false
  }

  function Step(s: State, record: string): (r: State)
    requires Total(s)
    ensures Total(r)
  {
    State(KindOf(record),
          map t: Talker | t in s.channels :: ChannelAfter(record, s.channels[t], t),
          s.notified + if s.kind.Gsv? && !Contains(record, "GSV") then 1 else 0)
  }

  function Run(s: State, records: seq<string>): (r: State)
    requires Total(s)
    ensures Total(r)
    decreases |records|
  {
    if records == [] then s else Run(Step(s, records[0]), records[1..])
  }

  function Init(): State {
    State(Others, map[Gp := Channel([], []), Gl := Channel([], []), Ga := Channel([], []),
                      Bd := Channel([], []), Unknown := Channel([], [])], 0)
  }

  // ----- what the lists hold, for sentences as they are printed -----

  function Zeros(k: nat): string {
    if k == 0 then "" else "0" + Zeros(k - 1)
  }

  // a number in decimal, with any zeros in front
  ghost predicate Spells(field: string, n: nat) {
    exists k: nat :: field == Zeros(k) + NmeaTokens.Decimal(n)
  }

  lemma {:induction false} FirstDigit(n: nat)
    requires n > 0
    ensures NmeaTokens.Decimal(n)[0] != '0'
  {
    if n < 10 {
    } else {
      NmeaTokens.DecimalValue(n / 10);
      FirstDigit(n / 10);
    }
  }

  lemma {:induction false} ZerosGo(k: nat, s: string)
    ensures WithoutZeros(Zeros(k) + s) == WithoutZeros(s)
  {
    if k == 0 {
      assert "" + s == s;
    } else {
      assert (Zeros(k) + s)[1..] == Zeros(k - 1) + s;
      ZerosGo(k - 1, s);
    }
  }

  lemma {:induction false} PositiveStays(n: nat)
    requires n > 0
    ensures WithoutZeros(NmeaTokens.Decimal(n)) == NmeaTokens.Decimal(n) == NmeaTokens.Signed(n)
  {
    FirstDigit(n);
    NmeaTokens.DecimalValue(n);
  }

  /** Zeros in front of a number make no difference. */
  lemma {:induction false} SpelledNumberReads(field: string, n: nat)
    requires Spells(field, n) && 0 < n < 0x8000_0000
    ensures ParseInt(field) == n && field != ""
  {
    var k: nat :| field == Zeros(k) + NmeaTokens.Decimal(n);
    ZerosGo(k, NmeaTokens.Decimal(n));
    PositiveStays(n);
    IntegerRoundTrip(n);
  }

  // fields that spell the numbers, one after the other
  ghost predicate AllSpelled(fields: seq<string>, ns: seq<nat>) {
    |fields| == |ns| && forall i :: 0 <= i < |ns| ==> Spells(fields[i], ns[i]) && 0 < ns[i] < 0x8000_0000
  }

  lemma {:induction false} SpelledFront(fields: seq<string>, ns: seq<nat>)
    requires AllSpelled(fields, ns) && fields != []
    ensures var n := |fields| - 1;
      && AllSpelled(fields[..n], ns[..n]) && PositiveIn(fields[n]) == [ns[n]]
      && fields == fields[..n] + [fields[n]] && ns == ns[..n] + [ns[n]]
  {
    var n := |fields| - 1;
    SpelledNumberReads(fields[n], ns[n]);
  }

  lemma {:induction false} SpelledArePositive(fields: seq<string>, ns: seq<nat>)
    requires AllSpelled(fields, ns)
    ensures Positive(fields) == ns
    decreases |fields|
  {
    if fields == [] {
    } else {
      var n := |fields| - 1;
      SpelledFront(fields, ns);
      SpelledArePositive(fields[..n], ns[..n]);
      PositiveLast(fields[..n], fields[n]);
    }
  }

  lemma {:induction false} PositiveLast(fields: seq<string>, last: string)
    ensures Positive(fields + [last]) == Positive(fields) + PositiveIn(last)
  {
    assert (fields + [last])[..|fields|] == fields;
  }

  lemma {:induction false} EmptyAreNot(fields: seq<string>, more: nat)
    ensures Positive(fields + seq(more, _ => "")) == Positive(fields)
  {
    if more == 0 {
      assert fields + seq(more, _ => "") == fields;
    } else {
      var front := fields + seq(more - 1, _ => "");
      assert fields + seq(more, _ => "") == front + [""];
      EmptyAreNot(fields, more - 1);
      PositiveLast(front, "");
    }
  }

  // a GSA sentence with a fix: its mode, the numbers of up to twelve satellites, empty fields, dilutions
  ghost predicate GsaFields(values: seq<string>, fix: nat, prns: seq<nat>) {
    && |values| >= 17 && |prns| <= 12 && 2 <= fix <= 3
    && values[2] == NmeaTokens.Decimal(fix) && AllSpelled(values[3..3 + |prns|], prns)
    && forall i :: 3 + |prns| <= i < 15 ==> values[i] == ""
  }

  lemma {:induction false} GsaFieldsSplit(values: seq<string>, fix: nat, prns: seq<nat>)
    requires GsaFields(values, fix, prns)
    ensures values[2..15] == ([values[2]] + values[3..3 + |prns|]) + seq(12 - |prns|, _ => "")
    ensures AllSpelled([values[2]] + values[3..3 + |prns|], [fix] + prns)
  {
    assert values[2] == Zeros(0) + NmeaTokens.Decimal(fix);
    assert Spells(values[2], fix);
  }

  lemma {:induction false} GsaPositive(values: seq<string>, fix: nat, prns: seq<nat>)
    requires GsaFields(values, fix, prns)
    ensures HasFix(values) && Positive(values[2..15]) == [fix] + prns
  {
    GsaFieldsSplit(values, fix, prns);
    EmptyAreNot([values[2]] + values[3..3 + |prns|], 12 - |prns|);
    SpelledArePositive([values[2]] + values[3..3 + |prns|], [fix] + prns);
  }

  /** Behind a talker's GSA sentence with a fix its used list holds the satellites the sentence names, in their order,
      and in front of them the fix mode itself: the loop over the numbers begins one field too early. No satellite is
      flagged any more. */
  lemma {:induction false} GsaListsItsSatellites(record: string, c: Channel, t: Talker, fix: nat, prns: seq<nat>)
    requires KindOf(record).Gsa? && TalkerOf(record) == t && !t.Unknown? && GsaFields(Split(record, ','), fix, prns)
    ensures ChannelAfter(record, c, t).used == [fix] + prns
    ensures forall sat :: sat in ChannelAfter(record, c, t).sats ==> !sat.usedInFix
  {
    GsaPositive(Split(record, ','), fix, prns);
  }

  /** Behind one without a fix it is empty. */
  lemma {:induction false} GsaWithoutFix(record: string, c: Channel, t: Talker)
    requires KindOf(record).Gsa? && TalkerOf(record) == t
    requires var values := Split(record, ','); |values| < 17 || values[2] == "1"
    ensures ChannelAfter(record, c, t).used == []
    ensures forall sat :: sat in ChannelAfter(record, c, t).sats ==> !sat.usedInFix
  {
  }

  // a GSV sentence: from field lo on four fields for each satellite, its number first
  ghost predicate GsvFields(values: seq<string>, lo: nat, prns: seq<nat>) {
    && lo + 4 * |prns| <= |values| < lo + 4 * |prns| + 4
    && forall i :: 0 <= i < |prns| ==>
         Spells(values[lo + 4 * i], prns[i]) && 0 < prns[i] < 0x8000_0000 && !OnlyStars(values[lo + 4 * i + 3])
  }

  function Flagged(prns: seq<nat>, used: seq<int>): seq<Sat> {
    seq(|prns|, i requires 0 <= i < |prns| => Sat(prns[i], prns[i] in used))
  }

  lemma {:induction false} GsvFirst(values: seq<string>, lo: nat, prns: seq<nat>)
    requires GsvFields(values, lo, prns) && prns != []
    ensures lo + 3 < |values| && ParseInt(values[lo]) == prns[0] > 0 && !OnlyStars(values[lo + 3])
  {
    assert Spells(values[lo + 4 * 0], prns[0]) && !OnlyStars(values[lo + 4 * 0 + 3]);
    SpelledNumberReads(values[lo], prns[0]);
  }

  lemma {:induction false} GsvRest(values: seq<string>, lo: nat, prns: seq<nat>)
    requires GsvFields(values, lo, prns) && prns != []
    ensures GsvFields(values, lo + 4, prns[1..])
  {
    forall i | 0 <= i < |prns[1..]|
      ensures Spells(values[lo + 4 + 4 * i], prns[1..][i]) && 0 < prns[1..][i] < 0x8000_0000
      ensures !OnlyStars(values[lo + 4 + 4 * i + 3])
    {
      assert Spells(values[lo + 4 * (i + 1)], prns[i + 1]) && !OnlyStars(values[lo + 4 * (i + 1) + 3]);
    }
  }

  lemma {:induction false} FlaggedFirst(prns: seq<nat>, used: seq<int>)
    requires prns != []
    ensures Flagged(prns, used) == [Sat(prns[0], prns[0] in used)] + Flagged(prns[1..], used)
  {
  }

  lemma {:induction false} SpelledSats(values: seq<string>, lo: nat, prns: seq<nat>, used: seq<int>)
    requires GsvFields(values, lo, prns)
    ensures SatsFrom(values, lo, used) == Flagged(prns, used)
    decreases |prns|
  {
    if prns == [] {
    } else {
      GsvFirst(values, lo, prns);
      GsvRest(values, lo, prns);
      SpelledSats(values, lo + 4, prns[1..], used);
      FlaggedFirst(prns, used);
    }
  }

  /** Behind a talker's GSV sentence its satellites are those listed before, or none if it is the first of its group,
      and those of the sentence, in their order, each flagged exactly if the talker's last GSA sentence lists it. */
  lemma {:induction false} GsvListsItsSatellites(record: string, c: Channel, t: Talker, total: nat, message: nat,
                                                 prns: seq<nat>)
    requires KindOf(record).Gsv? && TalkerOf(record) == t && !t.Unknown?
    requires var values := Split(record, ',');
      |values| >= 4 && GsvFields(values, 4, prns) && Spells(values[1], total) && Spells(values[2], message)
    requires 0 < total < 0x8000_0000 && 0 < message < 0x8000_0000
    ensures ChannelAfter(record, c, t) ==
            Channel((if message == 1 then [] else c.sats) + Flagged(prns, c.used), c.used)
  {
    var values := Split(record, ',');
    SpelledNumberReads(values[1], total);
    SpelledNumberReads(values[2], message);
    SpelledSats(values, 4, prns, c.used);
  }

  // ----- flags agree with the used list -----

  // every flagged satellite is in the used list
  predicate Sound(c: Channel) {
    forall i :: 0 <= i < |c.sats| && c.sats[i].usedInFix ==> c.sats[i].prn in c.used
  }

  // flagged exactly if in the used list
  predicate Exact(c: Channel) {
    forall i :: 0 <= i < |c.sats| ==> (c.sats[i].usedInFix <==> c.sats[i].prn in c.used)
  }

  lemma {:induction false} SatsFromAreExact(values: seq<string>, lo: nat, used: seq<int>)
    ensures Exact(Channel(SatsFrom(values, lo, used), used))
    decreases |values| - lo
  {
    if lo + 3 >= |values| || OnlyStars(values[lo + 3]) {
    } else {
      SatsFromAreExact(values, lo + 4, used);
    }
  }

  lemma {:induction false} ChannelStaysSound(record: string, c: Channel, t: Talker)
    requires Sound(c)
    ensures Sound(ChannelAfter(record, c, t))
  {
    SatsFromAreExact(Split(record, ','), 4, c.used);
  }

  // only the talker's own GSA sentence can leave satellites unflagged that its new list names
  lemma {:induction false} ChannelStaysExact(record: string, c: Channel, t: Talker)
    requires Exact(c) && !(KindOf(record).Gsa? && TalkerOf(record) == t)
    ensures Exact(ChannelAfter(record, c, t))
  {
    SatsFromAreExact(Split(record, ','), 4, c.used);
  }

  /** After any stream of sentences a satellite flagged as used has its number in its own talker's used list. */
  lemma {:induction false} FlaggedAreUsed(s: State, records: seq<string>, t: Talker)
    requires Total(s) && Sound(s.channels[t])
    ensures Sound(Run(s, records).channels[t])
    decreases |records|
  {
    if records == [] {
    } else {
      ChannelStaysSound(records[0], s.channels[t], t);
      FlaggedAreUsed(Step(s, records[0]), records[1..], t);
    }
  }

  predicate HasGsaOf(records: seq<string>, t: Talker) {
    exists i :: 0 <= i < |records| && KindOf(records[i]).Gsa? && TalkerOf(records[i]) == t
  }

  /** Between a GGA sentence and the talker's next GSA sentence the flags and the used list say the same. */
  lemma {:induction false} ExactSinceGga(s: State, gga: string, records: seq<string>, t: Talker)
    requires Total(s) && KindOf(gga).Gga? && !HasGsaOf(records, t)
    ensures Exact(Run(s, [gga] + records).channels[t])
    ensures Run(s, [gga] + records).channels[t].used == s.channels[t].used
  {
    var r := Step(s, gga);
    assert ([gga] + records)[1..] == records;
    StaysExact(r, records, t);
  }

  lemma {:induction false} StaysExact(s: State, records: seq<string>, t: Talker)
    requires Total(s) && Exact(s.channels[t]) && !HasGsaOf(records, t)
    ensures Exact(Run(s, records).channels[t]) && Run(s, records).channels[t].used == s.channels[t].used
    decreases |records|
  {
    if records == [] {
    } else {
      assert !(KindOf(records[0]).Gsa? && TalkerOf(records[0]) == t);
      ChannelStaysExact(records[0], s.channels[t], t);
      forall i | 0 <= i < |records[1..]|
        ensures !(KindOf(records[1..][i]).Gsa? && TalkerOf(records[1..][i]) == t)
      {
        assert records[1..][i] == records[i + 1];
      }
      StaysExact(Step(s, records[0]), records[1..], t);
    }
  }

  // the sentences directly behind a GSV sentence in which "GSV" does not occur
  function GroupEnds(records: seq<string>): nat {
    if |records| < 2 then 0
    else
      var n := |records| - 1;
      GroupEnds(records[..n]) + (if KindOf(records[n - 1]).Gsv? && !Contains(records[n], "GSV") then 1 else 0)
  }

  lemma {:induction false} RunLast(s: State, records: seq<string>, last: string)
    requires Total(s)
    ensures Run(s, records + [last]) == Step(Run(s, records), last)
    decreases |records|
  {
    if records == [] {
      assert (records + [last])[1..] == [];
    } else {
      assert (records + [last])[1..] == records[1..] + [last];
      RunLast(Step(s, records[0]), records[1..], last);
    }
  }

  /** The screen is notified once behind each unbroken group of GSV sentences. */
  lemma {:induction false} NotifiedPerGroup(s: State, records: seq<string>)
    requires Total(s) && s.kind == Init().kind
    ensures Run(s, records).notified == s.notified + GroupEnds(records)
    ensures records != [] ==> Run(s, records).kind == KindOf(records[|records| - 1])
    decreases |records|
  {
    if records == [] {
    } else {
      var n := |records| - 1;
      NotifiedPerGroup(s, records[..n]);
      assert records[..n] + [records[n]] == records;
      RunLast(s, records[..n], records[n]);
    }
  }

  // ----- talkers do not disturb each other -----

  // the sentences that concern a talker
  function Own(records: seq<string>, t: Talker): seq<string> {
    if records == [] then []
    else (if Concerns(records[0], t) then [records[0]] else []) + Own(records[1..], t)
  }

  /** A talker's lists after any stream are those after its own GSA and GSV sentences and the GGA sentences alone,
      in whatever state the other talkers start. */
  lemma {:induction false} OnlyOwnSentencesMatter(s: State, other: State, records: seq<string>, t: Talker)
    requires Total(s) && Total(other) && s.channels[t] == other.channels[t]
    ensures Run(s, records).channels[t] == Run(other, Own(records, t)).channels[t]
    decreases |records|
  {
    if records == [] {
    } else {
      var own := Own(records[1..], t);
      if Concerns(records[0], t) {
        assert ([records[0]] + own)[1..] == own;
        OnlyOwnSentencesMatter(Step(s, records[0]), Step(other, records[0]), records[1..], t);
      } else {
        assert Own(records, t) == own;
        OnlyOwnSentencesMatter(Step(s, records[0]), other, records[1..], t);
      }
    }
  }

  /** The satellite list changes only with a sentence of its own talker or a GGA sentence, the used list only with
      its own talker's GSA sentence. */
  lemma {:induction false} WhatChangesLists(s: State, record: string, t: Talker)
    requires Total(s)
    ensures var r := Step(s, record);
      && (r.channels[t].sats != s.channels[t].sats ==> Concerns(record, t))
      && (r.channels[t].used != s.channels[t].used ==> KindOf(record).Gsa? && TalkerOf(record) == t)
  {
  }

  // ----- the parser's fields -----

  function Look<T>(lists: map<Talker, seq<T>>, t: Talker): seq<T> {
    if t in lists then lists[t] else []
  }

  // the four known talkers always have a satellite list
  ghost predicate Known(lists: map<Talker, seq<Sat>>) {
    forall t: Talker :: t in lists <==> !t.Unknown?
  }

  ghost predicate SameBut<T(!new)>(a: map<Talker, seq<T>>, b: map<Talker, seq<T>>, t: Talker) {
    forall o :: o != t ==> Look(a, o) == Look(b, o)
  }

  function ChannelIn(sats: map<Talker, seq<Sat>>, used: map<Talker, seq<int>>, t: Talker): Channel {
    Channel(Look(sats, t), Look(used, t))
  }

  class NmeaParser {
    var parseState: Kind
    var currentTalker: Talker
    var satelInfoList: map<Talker, seq<Sat>>
    var usedFixIdMapList: map<Talker, seq<int>>
    var notified: nat

    constructor ()
      ensures Known(satelInfoList) && parseState == Others && notified == 0
      ensures forall t :: ChannelIn(satelInfoList, usedFixIdMapList, t) == Init().channels[t]
    {
      parseState, currentTalker, notified := Others, Unknown, 0;
      satelInfoList := map[Gp := [], Gl := [], Ga := [], Bd := []];
      usedFixIdMapList := map[];
    }

    method IsUsedInFix(prn: int) returns (b: bool)
      modifies this`usedFixIdMapList
      ensures b <==> prn in Look(usedFixIdMapList, currentTalker)
      ensures forall t :: Look(usedFixIdMapList, t) == Look(old(usedFixIdMapList), t)
    {
      if currentTalker !in usedFixIdMapList {
        usedFixIdMapList := usedFixIdMapList[currentTalker := []];
        return false;
      }
      var list := usedFixIdMapList[currentTalker];
      for i := 0 to |list|
        invariant prn !in list[..i]
      {
        if prn == list[i] {
          return true;
        }
      }
      assert list[..|list|] == list;
      b := false;
    }

    method AddUsedFixId(prn: int)
      modifies this`usedFixIdMapList
      ensures Look(usedFixIdMapList, currentTalker) == Look(old(usedFixIdMapList), currentTalker) + [prn]
      ensures SameBut(usedFixIdMapList, old(usedFixIdMapList), currentTalker)
    {
      if currentTalker !in usedFixIdMapList {
        usedFixIdMapList := usedFixIdMapList[currentTalker := []];
      }
      usedFixIdMapList := usedFixIdMapList[currentTalker := usedFixIdMapList[currentTalker] + [prn]];
    }

    method ClearUsedFixList()
      modifies this`usedFixIdMapList
      ensures Look(usedFixIdMapList, currentTalker) == []
      ensures SameBut(usedFixIdMapList, old(usedFixIdMapList), currentTalker)
    {
      usedFixIdMapList := usedFixIdMapList[currentTalker := []];
    }

    // clears the flags of one talker, if it is known
    method ClearFlags()
      requires Known(satelInfoList)
      modifies this`satelInfoList
      ensures Known(satelInfoList)
      ensures Look(satelInfoList, currentTalker) == Unflagged(Look(old(satelInfoList), currentTalker))
      ensures SameBut(satelInfoList, old(satelInfoList), currentTalker)
    {
      if currentTalker in satelInfoList {
        var list := satelInfoList[currentTalker];
        for i := 0 to |list|
          invariant |list| == |Look(old(satelInfoList), currentTalker)|
          invariant forall k :: 0 <= k < i ==> list[k] == Unflagged(Look(old(satelInfoList), currentTalker))[k]
          invariant forall k :: i <= k < |list| ==> list[k] == Look(old(satelInfoList), currentTalker)[k]
        {
          list := list[i := list[i].(usedInFix := false)];
        }
        satelInfoList := satelInfoList[currentTalker := list];
      }
    }

    method AddUsedField(field: string)
      modifies this`usedFixIdMapList
      ensures Look(usedFixIdMapList, currentTalker) == Look(old(usedFixIdMapList), currentTalker) + PositiveIn(field)
      ensures SameBut(usedFixIdMapList, old(usedFixIdMapList), currentTalker)
    {
      var prn := ParseInt(field);
      if prn > 0 {
        AddUsedFixId(prn);
      }
    }

    // the loop over fields 2 to 14
    method AddUsedIds(values: seq<string>)
      requires |values| >= 17
      modifies this`usedFixIdMapList
      ensures Look(usedFixIdMapList, currentTalker)
           == Look(old(usedFixIdMapList), currentTalker) + Positive(values[2..15])
      ensures SameBut(usedFixIdMapList, old(usedFixIdMapList), currentTalker)
    {
      ghost var used := Look(usedFixIdMapList, currentTalker);
      for i := 2 to 15
        invariant Look(usedFixIdMapList, currentTalker) == used + Positive(values[2..i])
        invariant SameBut(usedFixIdMapList, old(usedFixIdMapList), currentTalker)
      {
        AddUsedField(values[i]);
        OneMoreUsed(used, values, i);
      }
    }

    method ParseGsa(values: seq<string>) returns (thrown: bool)
      requires Known(satelInfoList)
      modifies this`satelInfoList, this`usedFixIdMapList
      ensures Known(satelInfoList)
      ensures ChannelIn(satelInfoList, usedFixIdMapList, currentTalker)
           == AfterGsa(values, ChannelIn(old(satelInfoList), old(usedFixIdMapList), currentTalker), currentTalker)
      ensures SameBut(satelInfoList, old(satelInfoList), currentTalker)
      ensures SameBut(usedFixIdMapList, old(usedFixIdMapList), currentTalker)
      ensures thrown <==> !currentTalker.Unknown? && |values| == 17 && HasFix(values)
    {
      ClearUsedFixList();
      ClearFlags();
      thrown := false;
      if !currentTalker.Unknown? && HasFix(values) {
        AddUsedIds(values);
        thrown := |values| == 17;
      }
    }

    // the loop over the satellites of a message
    method AddSats(values: seq<string>) returns (thrown: bool)
      requires currentTalker in satelInfoList
      modifies this`satelInfoList, this`usedFixIdMapList
      ensures satelInfoList == old(satelInfoList)[currentTalker :=
                old(satelInfoList)[currentTalker] + SatsFrom(values, 4, Look(old(usedFixIdMapList), currentTalker))]
      ensures forall t :: Look(usedFixIdMapList, t) == Look(old(usedFixIdMapList), t)
      ensures thrown <==> Unreadable(values, 4)
    {
      var index := 4;
      ghost var used := Look(usedFixIdMapList, currentTalker);
      ghost var goal := satelInfoList[currentTalker] + SatsFrom(values, 4, used);
      var list := satelInfoList[currentTalker];
      thrown := false;
      while index + 3 < |values| && !thrown
        modifies this`usedFixIdMapList
        invariant 4 <= index
        invariant list + (if thrown then [] else SatsFrom(values, index, used)) == goal
        invariant forall t :: Look(usedFixIdMapList, t) == Look(old(usedFixIdMapList), t)
        invariant Unreadable(values, 4) <==> thrown || Unreadable(values, index)
        decreases |values| - index, !thrown
      {
        if OnlyStars(values[index + 3]) {
          thrown := true;
        } else {
          var prn := ParseInt(values[index]);
          ghost var before, rest := list, SatsFrom(values, index + 4, used);
          if prn > 0 {
            var b := IsUsedInFix(prn);
            list := list + [Sat(prn, b)];
            AppendOne(before, Sat(prn, b), rest);
          } else {
            assert [] + rest == rest;
          }
          index := index + 4;
        }
      }
      assert list + [] == list;
      satelInfoList := satelInfoList[currentTalker := list];
    }

    method ParseGsv(values: seq<string>) returns (thrown: bool)
      requires Known(satelInfoList)
      modifies this`satelInfoList, this`usedFixIdMapList
      ensures Known(satelInfoList)
      ensures ChannelIn(satelInfoList, usedFixIdMapList, currentTalker)
           == AfterGsv(values, ChannelIn(old(satelInfoList), old(usedFixIdMapList), currentTalker), currentTalker)
      ensures SameBut(satelInfoList, old(satelInfoList), currentTalker)
      ensures SameBut(usedFixIdMapList, old(usedFixIdMapList), currentTalker)
      ensures thrown <==> !currentTalker.Unknown? && (|values| < 3 || Unreadable(values, 4))
    {
      if currentTalker.Unknown? {
        return false;
      }
      if |values| < 3 {
        return true;
      }
      var total, message := ParseInt(values[1]), ParseInt(values[2]);
      if total > 0 && message == 1 {
        satelInfoList := satelInfoList[currentTalker := []];
      }
      thrown := AddSats(values);
    }

    method ClearSatelliteList()
      requires Known(satelInfoList)
      modifies this`satelInfoList
      ensures Known(satelInfoList) && forall t :: Look(satelInfoList, t) == []
    {
      satelInfoList := map t | t in satelInfoList :: [];
    }

    method CheckTalker(record: string) returns (t: Talker)
      ensures t == TalkerOf(record)
    {
      var talkers := [Gp, Gl, Ga, Bd];
      for i := 0 to 4
        invariant forall k :: 0 <= k < i ==> !Contains(record, Prefix(talkers[k]))
      {
        if Contains(record, Prefix(talkers[i])) {
          assert i > 0 ==> !Contains(record, Prefix(talkers[0]));
          assert i > 1 ==> !Contains(record, Prefix(talkers[1]));
          assert i > 2 ==> !Contains(record, Prefix(talkers[2]));
          return talkers[i];
        }
      }
      assert forall k :: 0 <= k < 4 ==> !Contains(record, Prefix(talkers[k]));
      assert !Contains(record, Prefix(talkers[0])) && !Contains(record, Prefix(talkers[1]));
      assert !Contains(record, Prefix(talkers[2])) && !Contains(record, Prefix(talkers[3]));
      t := Unknown;
    }

    method Parse(record: string) returns (thrown: bool)
      requires Known(satelInfoList)
      modifies this
      ensures Known(satelInfoList) && parseState == KindOf(record)
      ensures forall t :: ChannelIn(satelInfoList, usedFixIdMapList, t)
                       == ChannelAfter(record, ChannelIn(old(satelInfoList), old(usedFixIdMapList), t), t)
      ensures notified == old(notified) + if old(parseState).Gsv? && !Contains(record, "GSV") then 1 else 0
      ensures thrown <==> Throws(record)
    {
      currentTalker := CheckTalker(record);
      if parseState.Gsv? && !Contains(record, "GSV") {
        notified := notified + 1;
      }
      var values := Split(record, ',');
      if Contains(record, "RMC") {
        parseState := Rmc;
        thrown := |values| < 9;
      } else if Contains(record, "GSA") {
        parseState := Gsa;
        thrown := ParseGsa(values);
      } else if Contains(record, "GGA") {
        parseState := Gga;
        ClearSatelliteList();
        thrown := |values| < 10;
      } else if Contains(record, "GSV") {
        parseState := Gsv;
        thrown := ParseGsv(values);
      } else {
        parseState := Others;
        thrown := false;
      }
    }
  }

  lemma {:induction false} Append(a: seq<int>, b: seq<int>, c: seq<int>)
    ensures (a + b) + c == a + (b + c)
  {
  }

  lemma {:induction false} OneMoreUsed(used: seq<int>, values: seq<string>, i: nat)
    requires 2 <= i < |values|
    ensures (used + Positive(values[2..i])) + PositiveIn(values[i]) == used + Positive(values[2..i + 1])
  {
    PositiveUpTo(values, 2, i);
    Append(used, Positive(values[2..i]), PositiveIn(values[i]));
  }

  lemma {:induction false} PositiveUpTo(values: seq<string>, lo: nat, i: nat)
    requires lo <= i < |values|
    ensures Positive(values[lo..i + 1]) ==
            Positive(values[lo..i]) + PositiveIn(values[i])
  {
    var fields := values[lo..i + 1];
    assert fields[..|fields| - 1] == values[lo..i];
  }

  lemma {:induction false} AppendOne(before: seq<Sat>, sat: Sat, rest: seq<Sat>)
    ensures before + ([sat] + rest) == (before + [sat]) + rest
  {
  }
}
