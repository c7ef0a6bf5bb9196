/** The satellites in view: GSV messages are gathered group by group behind the satellites already reported as
    complete, GSA messages mark satellites as used, and the whole list is reported at the end of a batch. */
module SatelliteView {
  import opened NmeaTokens

  const GPS_MAX_SVS := 32   // Android's gps.h
  const GNSS_MAX_SVS := 64  // Android's gps.h
  const PER_MESSAGE := 4    // NMEA_MAX_SV_INFO

  datatype Constellation = Gps | Glonass | Beidou
  // elevation and azimuth as read, signal strength as the unread token
  datatype Data = Data(elevation: int, azimuth: int, snr: string)
  datatype Sat = Sat(id: int, constellation: Constellation, data: Data, used: bool)

  // one of the four satellites a GSV message can list
  datatype Slot = Slot(id: int, data: Data)
  datatype Gsv = Gsv(num: int, seqNo: int, cnt: int, slots: seq<Slot>)

  // Beidou satellite numbers start at 200
  function IdOf(field: string, beidou: bool): int {
    Number(field) + (if beidou then 200 else 0)
  }

  // the message a GSV sentence carries
  function SlotOf(texts: seq<string>, beidou: bool, k: nat): Slot {
    Slot(IdOf(Get(texts, 4 * (k + 1)), beidou),
         Data(Number(Get(texts, 4 * (k + 1) + 1)), Number(Get(texts, 4 * (k + 1) + 2)), Get(texts, 4 * (k + 1) + 3)))
  }

  function GsvOf(texts: seq<string>, beidou: bool): Gsv {
    Gsv(Number(Get(texts, 1)), Number(Get(texts, 2)), Number(Get(texts, 3)),
        seq(PER_MESSAGE, k requires 0 <= k < PER_MESSAGE => SlotOf(texts, beidou, k)))
  }

  // ----- state -----

  // the list always has room for GNSS_MAX_SVS entries
  datatype State = State(list: seq<Sat>, svCount: nat, numSvs: nat, used: set<int>)

  predicate Roomy(s: State) {
    |s.list| == GNSS_MAX_SVS
  }

  predicate Acceptable(id: int) {
    0 < id <= 232 && !(GPS_MAX_SVS < id < 65) && !(96 < id < 200)
  }

  function ConstellationOf(id: int): Constellation {
    if id < 33 then Gps else if id > 200 then Beidou else Glonass
  }

  function SatOf(slot: Slot, used: set<int>): Sat {
    Sat(slot.id, ConstellationOf(slot.id), slot.data, slot.id in used)
  }

  // nmea_reader_update_sv_status_gnss
  function Update(s: State, slot: Slot): (t: State)
    requires Roomy(s)
    ensures Roomy(t)
  {
    if !Acceptable(slot.id) || s.svCount >= GNSS_MAX_SVS || s.svCount + s.numSvs >= GNSS_MAX_SVS then s
    else s.(list := s.list[s.svCount + s.numSvs := SatOf(slot, s.used)], svCount := s.svCount + 1)
  }

  function UpdateAll(s: State, slots: seq<Slot>): (t: State)
    requires Roomy(s)
    ensures Roomy(t)
  {
    if slots == [] then s else Update(UpdateAll(s, slots[..|slots| - 1]), slots[|slots| - 1])
  }

  // how many slots of the message are read
  function SlotsRead(m: Gsv): nat {
    var svNum := m.cnt - (m.seqNo - 1) * PER_MESSAGE;
    if svNum < 0 then 0 else if svNum > PER_MESSAGE then PER_MESSAGE else svNum
  }

  predicate FourSlots(m: Gsv) {
    |m.slots| == PER_MESSAGE
  }

  function Gather(s: State, m: Gsv): (t: State)
    requires Roomy(s) && FourSlots(m)
    ensures Roomy(t)
  {
    UpdateAll(if m.seqNo == 1 then s.(svCount := 0) else s, m.slots[..SlotsRead(m)])
  }

  function HandleGsv(s: State, m: Gsv): (t: State)
    requires Roomy(s) && FourSlots(m)
    ensures Roomy(t)
  {
    var t := Gather(s, m);
    if m.seqNo != m.num then t
    else if t.svCount <= m.cnt then t.(numSvs := t.numSvs + t.svCount)
    else t.(svCount := 0, numSvs := 0)
  }

  // the satellite numbers of a GSA sentence up to the first empty or unknown one; QZSS numbers are unmarked
  function Marked(used: set<int>, ids: seq<int>): set<int>
    decreases |ids|
  {
    if ids == [] then used
    else if 193 <= ids[0] <= 197 then Marked(used - {ids[0]}, ids[1..])
    else if 1 <= ids[0] <= 32 || 65 <= ids[0] <= 96 || 201 <= ids[0] <= 232 then Marked(used + {ids[0]}, ids[1..])
    else used
  }

  // ----- which satellites a GSA sentence marks -----

  predicate InFixRange(id: int) {
    1 <= id <= 32 || 65 <= id <= 96 || 201 <= id <= 232
  }

  predicate InQzssRange(id: int) {
    193 <= id <= 197
  }

  // x stands in the list, and no number up to there is an unknown one
  predicate Named(ids: seq<int>, x: int) {
    exists i :: 0 <= i < |ids| && ids[i] == x && KnownUpTo(ids, i)
  }

  predicate KnownUpTo(ids: seq<int>, i: nat)
    requires i < |ids|
  {
    forall j :: 0 <= j <= i ==> InFixRange(ids[j]) || InQzssRange(ids[j])
  }

  lemma {:induction false} NamedFirst(ids: seq<int>, x: int)
    requires ids != []
    ensures Named(ids, x) <==> (InFixRange(ids[0]) || InQzssRange(ids[0])) && (ids[0] == x || Named(ids[1..], x))
  {
    var rest := ids[1..];
    if i :| 0 <= i < |ids| && ids[i] == x && KnownUpTo(ids, i) {
      assert InFixRange(ids[0]) || InQzssRange(ids[0]);
      if i > 0 {
        assert rest[i - 1] == x && forall j :: 0 <= j <= i - 1 ==> rest[j] == ids[j + 1];
        assert KnownUpTo(rest, i - 1);
      }
    }
    if (InFixRange(ids[0]) || InQzssRange(ids[0])) && Named(rest, x) {
      var i :| 0 <= i < |rest| && rest[i] == x && KnownUpTo(rest, i);
      assert ids[i + 1] == x;
      assert forall j :: 0 <= j <= i + 1 ==> j == 0 || ids[j] == rest[j - 1];
      assert KnownUpTo(ids, i + 1);
    }
  }

  /** Behind a GSA sentence a satellite is marked if the sentence names it, in front of any unknown number, as one of
      GPS, GLONASS or Beidou; one it names as QZSS is not; any other is if it was. */
  lemma {:induction false} MarkedIs(used: set<int>, ids: seq<int>, x: int)
    ensures x in Marked(used, ids) <==> if Named(ids, x) then InFixRange(x) else x in used
    decreases |ids|
  {
    if ids == [] {
    } else {
      NamedFirst(ids, x);
      if InQzssRange(ids[0]) {
        MarkedIs(used - {ids[0]}, ids[1..], x);
      } else if InFixRange(ids[0]) {
        MarkedIs(used + {ids[0]}, ids[1..], x);
      }
    }
  }

  datatype Sentence =
    | GsvSentence(m: Gsv)
    | GsaSentence(fixMode: int, ids: seq<int>)  // the numbers before the first empty field, twelve at most
    | OtherSentence
    | CallbacksSet                              // not a sentence: CMD_START resets the counts

  function HandleSentence(s: State, x: Sentence): (t: State)
    requires Roomy(s) && (x.GsvSentence? ==> FourSlots(x.m))
    ensures Roomy(t)
  {
    match x
    case GsvSentence(m) => HandleGsv(s, m)
    case GsaSentence(mode, ids) => if mode == 2 || mode == 3 then s.(used := Marked(s.used, ids)) else s
    case OtherSentence => s
    case CallbacksSet => s.(svCount := 0, numSvs := 0)
  }

  // a sentence, and whether the parser reaches its end at the end of a batch read from the device
  datatype Event = Event(x: Sentence, end: bool)
  datatype Report = Report(num: nat, list: seq<Sat>)

  // the satellite numbers in the fields from k on, up to the first empty one
  function Ids(fields: seq<string>, beidou: bool, k: nat): seq<int>
    decreases |fields| - k
  {
    if k >= |fields| || fields[k] == "" then []
    else [IdOf(fields[k], beidou)] + Ids(fields, beidou, k + 1)
  }

  function GsaOf(texts: seq<string>, beidou: bool): Sentence {
    GsaSentence(Number(Get(texts, 2)), Ids(seq(12, k requires 0 <= k < 12 => Get(texts, k + 3)), beidou, 0))
  }

  predicate IsGsa(id: string) {
    id == "GPGSA" || id == "BDGSA" || id == "GLGSA"
  }

  // what a complete line means to the parser; lines too short to be parsed do not reach the report
  function EventOf(line: string, end: bool): Event {
    var texts := Texts(line);
    var id := Get(texts, 0);
    if |line| < 9 || |id| < 5 then Event(OtherSentence, false)
    else
      var beidou := id[..2] == "BD";
      Event(if id[2..5] == "GGA" then OtherSentence
            else if IsGsa(id[..5]) then GsaOf(texts, beidou)
            else if id[2..5] == "RMC" then OtherSentence
            else if id[2..5] == "GSV" then GsvSentence(GsvOf(texts, beidou))
            else OtherSentence,
            end)
  }

  predicate Reports(s: State, end: bool) {
    s.numSvs != 0 && end
  }

  function Cleared(s: State, end: bool): State {
    if Reports(s, end) then s.(svCount := 0, numSvs := 0, used := {}) else s
  }

  predicate WellFormed(events: seq<Event>) {
    forall e :: e in events && e.x.GsvSentence? ==> FourSlots(e.x.m)
  }

  function Run(s: State, events: seq<Event>): (t: State)
    requires Roomy(s) && WellFormed(events)
    ensures Roomy(t)
    decreases |events|
  {
    if events == [] then s else
      assert events[0] in events;
      Run(Cleared(HandleSentence(s, events[0].x), events[0].end), events[1..])
  }

  function ReportsOf(s: State, events: seq<Event>): seq<Report>
    requires Roomy(s) && WellFormed(events)
    decreases |events|
  {
    if events == [] then [] else
      assert events[0] in events;
      var t := HandleSentence(s, events[0].x);
      (if Reports(t, events[0].end) then [Report(t.numSvs, t.list)] else [])
        + ReportsOf(Cleared(t, events[0].end), events[1..])
  }

  // ----- any stream: satellites counted as complete are never rewritten -----

  lemma {:induction false} UpdateAllWritesBehind(s: State, slots: seq<Slot>)
    requires Roomy(s)
    ensures var t := UpdateAll(s, slots);
      && t.numSvs == s.numSvs && t.used == s.used && s.svCount <= t.svCount <= s.svCount + |slots|
      && (forall i :: 0 <= i < GNSS_MAX_SVS && i < s.numSvs + s.svCount ==> t.list[i] == s.list[i])
    decreases |slots|
  {
    if slots == [] {
    } else {
      UpdateAllWritesBehind(s, slots[..|slots| - 1]);
    }
  }

  /** Whatever sentence arrives, the entries below num_svs keep their values unless num_svs is reset. */
  lemma {:induction false} CountedEntriesStay(s: State, e: Event)
    requires Roomy(s) && (e.x.GsvSentence? ==> FourSlots(e.x.m))
    ensures var t := Cleared(HandleSentence(s, e.x), e.end);
      || t.numSvs == 0
      || (t.numSvs >= s.numSvs && forall i :: 0 <= i < GNSS_MAX_SVS && i < s.numSvs ==> t.list[i] == s.list[i])
  {
    match e.x {
      case GsvSentence(m) =>
        UpdateAllWritesBehind(if m.seqNo == 1 then s.(svCount := 0) else s, m.slots[..SlotsRead(m)]);
      case _ =>
    }
  }

  // num_svs is not zero after any of the events
  predicate NeverReset(s: State, events: seq<Event>)
    requires Roomy(s) && WellFormed(events)
    decreases |events|
  {
    events == [] ||
    (assert events[0] in events;
     var t := Cleared(HandleSentence(s, events[0].x), events[0].end);
     t.numSvs != 0 && NeverReset(t, events[1..]))
  }

  /** ... over a stream of any length. */
  lemma {:induction false} CountedEntriesStayThroughout(s: State, events: seq<Event>)
    requires Roomy(s) && WellFormed(events) && NeverReset(s, events)
    ensures Run(s, events).numSvs >= s.numSvs
    ensures forall i :: 0 <= i < GNSS_MAX_SVS && i < s.numSvs ==> Run(s, events).list[i] == s.list[i]
    decreases |events|
  {
    if events == [] {
    } else {
      assert events[0] in events;
      CountedEntriesStay(s, events[0]);
      CountedEntriesStayThroughout(Cleared(HandleSentence(s, events[0].x), events[0].end), events[1..]);
    }
  }

  // ----- well-formed groups -----

  // a group of GSV messages numbered 1..n under one satellite count, or another sentence between groups
  datatype Item = Group(cnt: nat, parts: seq<seq<Slot>>, end: bool) | Between(x: Sentence, end: bool)

  predicate ItemOk(i: Item) {
    match i
    case Group(_, parts, _) => parts != [] && forall p :: p in parts ==> |p| == PER_MESSAGE
    case Between(x, _) => x.GsaSentence? || x.OtherSentence?
  }

  function MessageOf(g: Item, k: nat): Gsv
    requires g.Group? && k < |g.parts|
  {
    Gsv(|g.parts|, k + 1, g.cnt, g.parts[k])
  }

  // messages k.. of the group; only the last one may end a batch
  function MessagesFrom(g: Item, k: nat): seq<Event>
    requires g.Group? && k <= |g.parts|
    decreases |g.parts| - k
  {
    if k == |g.parts| then []
    else [Event(GsvSentence(MessageOf(g, k)), k == |g.parts| - 1 && g.end)] + MessagesFrom(g, k + 1)
  }

  function EventsOf(i: Item): seq<Event> {
    match i
    case Group(_, _, _) => MessagesFrom(i, 0)
    case Between(x, end) => [Event(x, end)]
  }

  function Stream(items: seq<Item>): seq<Event> {
    if items == [] then [] else EventsOf(items[0]) + Stream(items[1..])
  }

  // ----- what should be reported -----

  function AcceptedOf(slots: seq<Slot>, used: set<int>): seq<Sat> {
    if slots == [] then []
    else
      var last := slots[|slots| - 1];
      AcceptedOf(slots[..|slots| - 1], used) + (if Acceptable(last.id) then [SatOf(last, used)] else [])
  }

  // the satellites accepted from messages 0..k-1 of a group, in arrival order
  function AcceptedBefore(g: Item, k: nat, used: set<int>): seq<Sat>
    requires g.Group? && ItemOk(g) && k <= |g.parts|
  {
    if k == 0 then []
    else
      assert g.parts[k - 1] in g.parts;
      AcceptedBefore(g, k - 1, used) + AcceptedOf(g.parts[k - 1][..SlotsRead(MessageOf(g, k - 1))], used)
  }

  function Cut(list: seq<Sat>): seq<Sat> {
    if |list| <= GNSS_MAX_SVS then list else list[..GNSS_MAX_SVS]
  }

  // satellites accepted since the last report, and the numbers marked as used since then
  datatype Spec = Spec(pending: seq<Sat>, used: set<int>)

  function SpecHandle(v: Spec, i: Item): Spec
    requires ItemOk(i)
  {
    match i
    case Group(_, parts, _) => v.(pending := Cut(v.pending + AcceptedBefore(i, |parts|, v.used)))
    case Between(x, _) =>
      if x.GsaSentence? && (x.fixMode == 2 || x.fixMode == 3) then v.(used := Marked(v.used, x.ids)) else v
  }

  function ItemEnd(i: Item): bool {
    match i case Group(_, _, end) => end case Between(_, end) => end
  }

  predicate AllOk(items: seq<Item>) {
    forall i :: i in items ==> ItemOk(i)
  }

  // the state expected behind one item, and the list expected to be reported with it
  function SpecBehind(v: Spec, i: Item): Spec
    requires ItemOk(i)
  {
    var w := SpecHandle(v, i);
    if ItemEnd(i) && w.pending != [] then Spec([], {}) else w
  }

  function ExpectedOf(v: Spec, i: Item): seq<seq<Sat>>
    requires ItemOk(i)
  {
    var w := SpecHandle(v, i);
    if ItemEnd(i) && w.pending != [] then [w.pending] else []
  }

  function Expected(v: Spec, items: seq<Item>): seq<seq<Sat>>
    requires AllOk(items)
    decreases |items|
  {
    if items == [] then [] else
      assert items[0] in items;
      ExpectedOf(v, items[0]) + Expected(SpecBehind(v, items[0]), items[1..])
  }

  // ----- the proof -----

  // list[..n] holds what was pending, and list[n..n+c] what the group added, as far as there is room
  ghost predicate Holds(s: State, pending: seq<Sat>, added: seq<Sat>) {
    && Roomy(s) && s.numSvs == |pending| <= GNSS_MAX_SVS
    && s.svCount == (if |pending| + |added| <= GNSS_MAX_SVS then |added| else GNSS_MAX_SVS - |pending|)
    && s.list[..s.numSvs + s.svCount] == Cut(pending + added)
  }

  lemma {:induction false} UpdateHolds(s: State, slot: Slot, pending: seq<Sat>, added: seq<Sat>)
    requires Holds(s, pending, added)
    ensures Holds(Update(s, slot), pending,
                  added + (if Acceptable(slot.id) then [SatOf(slot, s.used)] else []))
  {
  }

  lemma {:induction false} UpdateAllHolds(s: State, slots: seq<Slot>, pending: seq<Sat>, added: seq<Sat>)
    requires Holds(s, pending, added)
    ensures Holds(UpdateAll(s, slots), pending, added + AcceptedOf(slots, s.used))
    ensures UpdateAll(s, slots).used == s.used
    decreases |slots|
  {
    if slots == [] {
      assert added + [] == added;
    } else {
      var front, last := slots[..|slots| - 1], slots[|slots| - 1];
      UpdateAllHolds(s, front, pending, added);
      UpdateHolds(UpdateAll(s, front), last, pending, added + AcceptedOf(front, s.used));
      assert (added + AcceptedOf(front, s.used)) + (if Acceptable(last.id) then [SatOf(last, s.used)] else [])
          == added + AcceptedOf(slots, s.used);
    }
  }

  lemma {:induction false} AcceptedAtMost(slots: seq<Slot>, used: set<int>)
    ensures |AcceptedOf(slots, used)| <= |slots|
  {
    if slots == [] {
    } else {
      AcceptedAtMost(slots[..|slots| - 1], used);
    }
  }

  // an in-order group accepts no more satellites than it announces, so it is never taken for incomplete
  lemma {:induction false} GroupWithinCount(g: Item, k: nat, used: set<int>)
    requires g.Group? && ItemOk(g) && k <= |g.parts|
    ensures |AcceptedBefore(g, k, used)| <= (if 4 * k <= g.cnt then 4 * k else g.cnt)
  {
    if k == 0 {
    } else {
      assert g.parts[k - 1] in g.parts;
      GroupWithinCount(g, k - 1, used);
      AcceptedAtMost(g.parts[k - 1][..SlotsRead(MessageOf(g, k - 1))], used);
    }
  }

  lemma {:induction false} MessagesWellFormed(g: Item, k: nat)
    requires g.Group? && ItemOk(g) && k <= |g.parts|
    ensures WellFormed(MessagesFrom(g, k))
    decreases |g.parts| - k
  {
    if k == |g.parts| {
    } else {
      assert g.parts[k] in g.parts;
      MessagesWellFormed(g, k + 1);
    }
  }

  ghost predicate Matches(s: State, v: Spec) {
    Roomy(s) && s.numSvs == |v.pending| <= GNSS_MAX_SVS && s.list[..s.numSvs] == v.pending && s.used == v.used
  }

  // message k of a group, other than the last
  lemma {:induction false} MiddleMessage(s: State, g: Item, k: nat, pending: seq<Sat>)
    requires g.Group? && ItemOk(g) && k < |g.parts|
    requires if k == 0 then Matches(s, Spec(pending, s.used)) else Holds(s, pending, AcceptedBefore(g, k, s.used))
    ensures FourSlots(MessageOf(g, k))
    ensures var t := Gather(s, MessageOf(g, k));
      Holds(t, pending, AcceptedBefore(g, k + 1, s.used)) && t.used == s.used
  {
    assert g.parts[k] in g.parts;
    var m := MessageOf(g, k);
    var s0 := if m.seqNo == 1 then s.(svCount := 0) else s;
    if k == 0 {
      assert pending + [] == pending;
      assert Holds(s0, pending, []);
    }
    UpdateAllHolds(s0, m.slots[..SlotsRead(m)], pending, AcceptedBefore(g, k, s.used));
  }

  // the state and the reports behind a group
  ghost predicate GroupResult(g: Item, v: Spec, t: State, reports: seq<Report>)
    requires g.Group? && ItemOk(g)
  {
    var w := SpecHandle(v, g);
    if g.end && w.pending != [] then
      && Matches(t, Spec([], {})) && |reports| == 1
      && reports[0].num == |w.pending| <= GNSS_MAX_SVS && |reports[0].list| == GNSS_MAX_SVS
      && reports[0].list[..|w.pending|] == w.pending
    else Matches(t, w) && reports == []
  }

  // the messages of a group from k on, up to but not including the report behind the last one
  lemma {:induction false} GroupMatches(s: State, g: Item, k: nat, v: Spec)
    requires g.Group? && ItemOk(g) && k < |g.parts| && s.used == v.used
    requires if k == 0 then Matches(s, v) else Holds(s, v.pending, AcceptedBefore(g, k, v.used))
    ensures WellFormed(MessagesFrom(g, k))
    ensures GroupResult(g, v, Run(s, MessagesFrom(g, k)), ReportsOf(s, MessagesFrom(g, k)))
    decreases |g.parts| - k
  {
    MessagesWellFormed(g, k);
    var events := MessagesFrom(g, k);
    var m := MessageOf(g, k);
    MiddleMessage(s, g, k, v.pending);
    var t := Gather(s, m);
    assert events[0] in events && events[1..] == MessagesFrom(g, k + 1);
    if k + 1 < |g.parts| {
      assert HandleGsv(s, m) == t && Cleared(t, false) == t;
      GroupMatches(t, g, k + 1, v);
      assert Run(s, events) == Run(t, events[1..]);
      assert ReportsOf(s, events) == [] + ReportsOf(t, events[1..]);
    } else {
      LastMessage(s, g, v);
      assert events == [Event(GsvSentence(m), g.end)];
    }
  }

  // the last message, with the report behind it
  lemma {:induction false} LastMessage(s: State, g: Item, v: Spec)
    requires g.Group? && ItemOk(g) && s.used == v.used && FourSlots(MessageOf(g, |g.parts| - 1)) && Roomy(s)
    requires var t := Gather(s, MessageOf(g, |g.parts| - 1));
      Holds(t, v.pending, AcceptedBefore(g, |g.parts|, v.used)) && t.used == s.used
    ensures var e := Event(GsvSentence(MessageOf(g, |g.parts| - 1)), g.end);
      WellFormed([e]) && GroupResult(g, v, Run(s, [e]), ReportsOf(s, [e]))
  {
    var e := Event(GsvSentence(MessageOf(g, |g.parts| - 1)), g.end);
    GroupWithinCount(g, |g.parts|, v.used);
    assert e in [e] && [e][1..] == [];
  }

  lemma {:induction false} RunConcat(s: State, a: seq<Event>, b: seq<Event>)
    requires Roomy(s) && WellFormed(a) && WellFormed(b)
    ensures WellFormed(a + b)
    ensures Run(s, a + b) == Run(Run(s, a), b)
    ensures ReportsOf(s, a + b) == ReportsOf(s, a) + ReportsOf(Run(s, a), b)
    decreases |a|
  {
    if a == [] {
      assert a + b == b;
    } else {
      assert a[0] in a && (a + b)[0] == a[0] && (a + b)[1..] == a[1..] + b;
      var t := HandleSentence(s, a[0].x);
      RunConcat(Cleared(t, a[0].end), a[1..], b);
      var now := if Reports(t, a[0].end) then [Report(t.numSvs, t.list)] else [];
      Reassociate(now, ReportsOf(Cleared(t, a[0].end), a[1..]), ReportsOf(Run(s, a), b));
    }
  }

  lemma {:induction false} Reassociate(a: seq<Report>, b: seq<Report>, c: seq<Report>)
    ensures a + (b + c) == (a + b) + c
  {
  }

  // the reports carry exactly the expected lists, none longer than the array
  ghost predicate Show(reports: seq<Report>, expected: seq<seq<Sat>>) {
    && |reports| == |expected|
    && forall i :: 0 <= i < |reports| ==>
         reports[i].num <= |reports[i].list| && reports[i].list[..reports[i].num] == expected[i]
  }

  lemma {:induction false} StreamWellFormed(items: seq<Item>)
    requires AllOk(items)
    ensures WellFormed(Stream(items))
  {
    if items == [] {
    } else {
      assert items[0] in items;
      if items[0].Group? {
        MessagesWellFormed(items[0], 0);
      }
      StreamWellFormed(items[1..]);
    }
  }

  lemma {:induction false} BetweenMatches(s: State, v: Spec, x: Sentence, end: bool)
    requires Matches(s, v) && ItemOk(Between(x, end))
    ensures WellFormed([Event(x, end)])
    ensures Matches(Run(s, [Event(x, end)]), SpecBehind(v, Between(x, end)))
    ensures Show(ReportsOf(s, [Event(x, end)]), ExpectedOf(v, Between(x, end)))
  {
    var events := [Event(x, end)];
    assert events[1..] == [];
    assert Run(s, events) == Cleared(HandleSentence(s, x), end);
  }

  // one item, report included
  lemma {:induction false} ItemMatches(s: State, v: Spec, i: Item)
    requires Matches(s, v) && ItemOk(i)
    ensures WellFormed(EventsOf(i))
    ensures Matches(Run(s, EventsOf(i)), SpecBehind(v, i)) && Show(ReportsOf(s, EventsOf(i)), ExpectedOf(v, i))
  {
    match i {
      case Group(_, _, _) => GroupMatches(s, i, 0, v);
      case Between(x, end) => BetweenMatches(s, v, x, end);
    }
  }

  lemma {:induction false} ShowConcat(a: seq<Report>, b: seq<Report>, x: seq<seq<Sat>>, y: seq<seq<Sat>>)
    requires Show(a, x) && Show(b, y)
    ensures Show(a + b, x + y)
  {
  }

  /** For well-formed, in-order groups with reports between groups, every report is the concatenation of the
      satellites accepted since the previous one, in arrival order, cut at GNSS_MAX_SVS, each marked as used
      exactly if a GSA sentence since then had named it before its own message came. */
  lemma {:induction false} ReportsAreExpected(s: State, v: Spec, items: seq<Item>)
    requires Matches(s, v) && AllOk(items)
    ensures WellFormed(Stream(items))
    ensures Show(ReportsOf(s, Stream(items)), Expected(v, items))
    decreases |items|
  {
    StreamWellFormed(items);
    if items == [] {
    } else {
      assert items[0] in items;
      ItemMatches(s, v, items[0]);
      StreamWellFormed(items[1..]);
      RunConcat(s, EventsOf(items[0]), Stream(items[1..]));
      var t, next := Run(s, EventsOf(items[0])), SpecBehind(v, items[0]);
      ReportsAreExpected(t, next, items[1..]);
      ShowConcat(ReportsOf(s, EventsOf(items[0])), ReportsOf(t, Stream(items[1..])),
                 ExpectedOf(v, items[0]), Expected(next, items[1..]));
    }
  }

  /** Behind a start command nothing gathered before is reported; the marks of used satellites stay. */
  lemma {:induction false} StartForgets(s: State, items: seq<Item>)
    requires Roomy(s) && AllOk(items)
    ensures WellFormed(Stream(items))
    ensures Show(ReportsOf(HandleSentence(s, CallbacksSet), Stream(items)), Expected(Spec([], s.used), items))
  {
    ReportsAreExpected(HandleSentence(s, CallbacksSet), Spec([], s.used), items);
  }

  /** A line that is too short, or whose first field is, changes nothing and reports nothing, even at the end of a
      batch with satellites to report. */
  lemma {:induction false} ShortLineSaysNothing(s: State, line: string, end: bool)
    requires Roomy(s) && (|line| < 9 || |Get(Texts(line), 0)| < 5)
    ensures var e := EventOf(line, end);
      WellFormed([e]) && Run(s, [e]) == s && ReportsOf(s, [e]) == []
  {
    var e := EventOf(line, end);
    assert e in [e] && [e][1..] == [];
  }

  // ----- outside well-formed groups the count can outgrow the list -----

  lemma {:induction false} AllAccepted(slots: seq<Slot>, used: set<int>)
    requires forall x :: x in slots ==> Acceptable(x.id)
    ensures |AcceptedOf(slots, used)| == |slots|
  {
    if slots == [] {
    } else {
      assert slots[|slots| - 1] in slots;
      AllAccepted(slots[..|slots| - 1], used);
    }
  }

  // eleven messages announcing forty satellites, all of them satellite 1
  function FortyTimes(slot: Slot): Item {
    Group(40, seq(11, _ => [slot, slot, slot, slot]), false)
  }

  lemma {:induction false} FortyAccepted(slot: Slot, k: nat, used: set<int>)
    requires Acceptable(slot.id) && k <= 11
    ensures ItemOk(FortyTimes(slot))
    ensures |AcceptedBefore(FortyTimes(slot), k, used)| == if k <= 10 then 4 * k else 40
  {
    if k == 0 {
    } else {
      FortyAccepted(slot, k - 1, used);
      var g := FortyTimes(slot);
      AllAccepted(g.parts[k - 1][..SlotsRead(MessageOf(g, k - 1))], used);
    }
  }

  // the state right behind the last message of a group that does not end a batch
  lemma {:induction false} BehindGroup(s: State, g: Item, k: nat, v: Spec)
    requires g.Group? && ItemOk(g) && !g.end && k < |g.parts| && s.used == v.used
    requires if k == 0 then Matches(s, v) else Holds(s, v.pending, AcceptedBefore(g, k, v.used))
    ensures WellFormed(MessagesFrom(g, k))
    ensures var t := Run(s, MessagesFrom(g, k));
      var a := |AcceptedBefore(g, |g.parts|, v.used)|;
      t.svCount == (if |v.pending| + a <= GNSS_MAX_SVS then a else GNSS_MAX_SVS - |v.pending|)
      && t.numSvs == |v.pending| + t.svCount
    decreases |g.parts| - k
  {
    MessagesWellFormed(g, k);
    var events := MessagesFrom(g, k);
    MiddleMessage(s, g, k, v.pending);
    var t := Gather(s, MessageOf(g, k));
    assert events[0] in events && events[1..] == MessagesFrom(g, k + 1);
    if k + 1 < |g.parts| {
      assert HandleGsv(s, MessageOf(g, k)) == t && Cleared(t, false) == t;
      BehindGroup(t, g, k + 1, v);
      assert Run(s, events) == Run(t, events[1..]);
    } else {
      GroupWithinCount(g, |g.parts|, v.used);
      assert events[1..] == [];
    }
  }

  /** Repeating the last message of a group counts the group again: after forty satellites a repeated final
      message takes num_svs to 80, beyond the 64 entries of the list. */
  lemma {:induction false} RepeatedFinalMessageOverflows(s: State, slot: Slot)
    requires Matches(s, Spec([], s.used)) && Acceptable(slot.id)
    ensures var g := FortyTimes(slot);
      ItemOk(g) && WellFormed(EventsOf(g))
      && HandleGsv(Run(s, EventsOf(g)), MessageOf(g, 10)).numSvs == 80 > GNSS_MAX_SVS
  {
    var g := FortyTimes(slot);
    FortyAccepted(slot, 11, s.used);
    BehindGroup(s, g, 0, Spec([], s.used));
    assert MessageOf(g, 10).slots[..SlotsRead(MessageOf(g, 10))] == [];
  }

  lemma {:induction false} UpdateAllWithinRoom(s: State, slots: seq<Slot>)
    requires Roomy(s)
    ensures s.svCount + s.numSvs <= GNSS_MAX_SVS ==>
              UpdateAll(s, slots).svCount + s.numSvs <= GNSS_MAX_SVS
    ensures s.svCount + s.numSvs >= GNSS_MAX_SVS ==> UpdateAll(s, slots) == s
    ensures UpdateAll(s, slots).numSvs == s.numSvs
    decreases |slots|
  {
    if slots == [] {
    } else {
      UpdateAllWithinRoom(s, slots[..|slots| - 1]);
    }
  }

  /** A message takes num_svs beyond the list exactly if it is a final one, not the first of its group, that is
      not taken for incomplete and finds the gathered satellites already not fitting behind those counted. */
  lemma {:induction false} CountLeavesListOnlyIf(s: State, m: Gsv)
    requires Roomy(s) && FourSlots(m) && s.numSvs <= GNSS_MAX_SVS
    ensures HandleGsv(s, m).numSvs > GNSS_MAX_SVS <==>
            m.seqNo == m.num && m.seqNo != 1 && s.svCount <= m.cnt && s.svCount + s.numSvs > GNSS_MAX_SVS
  {
    UpdateAllWithinRoom(if m.seqNo == 1 then s.(svCount := 0) else s, m.slots[..SlotsRead(m)]);
  }

  // ----- the reader's fields -----

  class SvReader {
    const svList: array<Sat>
    var svCount: nat
    var numSvs: nat
    const svUsedInFix: array<bool>
    var reports: seq<Report>

    ghost predicate Valid()
      reads this
    {
      svList.Length == GNSS_MAX_SVS && svUsedInFix.Length == 256
    }

    ghost function Used(): set<int>
      requires Valid()
      reads this, svUsedInFix
    {
      set i | 0 <= i < 256 && svUsedInFix[i]
    }

    ghost function View(): State
      requires Valid()
      reads this, svList, svUsedInFix
    {
      State(svList[..], svCount, numSvs, Used())
    }

    constructor (blank: Sat)
      ensures Valid() && View() == State(seq(GNSS_MAX_SVS, _ => blank), 0, 0, {}) && reports == []
      ensures fresh(svList) && fresh(svUsedInFix)
    {
      svList := new Sat[GNSS_MAX_SVS](_ => blank);
      svUsedInFix := new bool[256](_ => false);
      svCount, numSvs, reports := 0, 0, [];
    }

    method UpdateSvStatusGnss(slot: Slot)
      requires Valid()
      modifies this`svCount, svList
      ensures View() == Update(old(View()), slot)
    {
      var prn := slot.id;
      if prn <= 0 || (prn < 65 && prn > GPS_MAX_SVS) || (prn > 96 && prn < 200) || prn > 232
         || svCount >= GNSS_MAX_SVS {
        return;
      }
      var index := svCount + numSvs;
      if GNSS_MAX_SVS <= index {
        return;
      }
      var ct := Glonass;
      if prn < 33 {
        ct := Gps;
      } else if prn > 200 {
        ct := Beidou;
      }
      assert svUsedInFix[prn] <==> prn in Used();
      svList[index] := Sat(prn, ct, slot.data, svUsedInFix[prn]);
      svCount := svCount + 1;
    }

    method ParseGsv(m: Gsv)
      requires Valid() && FourSlots(m)
      modifies this`svCount, this`numSvs, svList
      ensures View() == HandleGsv(old(View()), m)
    {
      var svBase := (m.seqNo - 1) * PER_MESSAGE;
      var svNum := m.cnt - svBase;
      if svNum > PER_MESSAGE {
        svNum := PER_MESSAGE;
      }
      if m.seqNo == 1 {
        svCount := 0;
      }
      ghost var s0 := View();
      assert s0 == if m.seqNo == 1 then old(View()).(svCount := 0) else old(View());
      var idx := 0;
      assert m.slots[..0] == [];
      while idx < svNum
        invariant 0 <= idx <= SlotsRead(m)
        invariant View() == UpdateAll(s0, m.slots[..idx])
      {
        assert m.slots[..idx + 1][..idx] == m.slots[..idx];
        UpdateSvStatusGnss(m.slots[idx]);
        idx := idx + 1;
      }
      assert idx == SlotsRead(m);
      assert View() == Gather(old(View()), m);
      if m.seqNo == m.num {
        if svCount <= m.cnt {
          numSvs := numSvs + svCount;
        } else {
          svCount, numSvs := 0, 0;
        }
      }
    }

    method ParseGsa(fixMode: int, ids: seq<int>)
      requires Valid()
      modifies svUsedInFix
      ensures View() == HandleSentence(old(View()), GsaSentence(fixMode, ids))
    {
      if fixMode != 2 && fixMode != 3 {
        return;
      }
      var idx := 0;
      while idx < |ids|
        invariant 0 <= idx <= |ids|
        invariant Marked(Used(), ids[idx..]) == Marked(old(Used()), ids)
      {
        var id := ids[idx];
        assert ids[idx..][0] == id && ids[idx..][1..] == ids[idx + 1..];
        ghost var before := Used();
        if 1 <= id <= 32 {
          svUsedInFix[id] := true;
          assert Used() == before + {id};
        } else if 193 <= id <= 197 {
          svUsedInFix[id] := false;
          assert Used() == before - {id};
        } else if 65 <= id <= 96 {
          svUsedInFix[id] := true;
          assert Used() == before + {id};
        } else if 201 <= id <= 232 {
          svUsedInFix[id] := true;
          assert Used() == before + {id};
        } else {
          break;
        }
        idx := idx + 1;
      }
    }

    // nmea_reader_parse on a complete line
    method ParseLine(line: string, end: bool)
      requires Valid()
      modifies this`svCount, this`numSvs, this`reports, svList, svUsedInFix
      ensures var e := EventOf(line, end);
        View() == Cleared(HandleSentence(old(View()), e.x), e.end)
        && reports == old(reports) + ReportsOf(old(View()), [e])
    {
      var e := ReadLine(line, end);
      Parse(e);
    }

    // the report at the end of the parser
    method ReportAtEnd(end: bool)
      requires Valid()
      modifies this`svCount, this`numSvs, this`reports, svUsedInFix
      ensures View() == Cleared(old(View()), end)
      ensures reports == old(reports) + (if Reports(old(View()), end) then [Report(old(numSvs), svList[..])] else [])
    {
      if numSvs != 0 && end {
        reports := reports + [Report(numSvs, svList[..])];
        svCount, numSvs := 0, 0;
        for i := 0 to 256
          modifies svUsedInFix
          invariant forall k :: 0 <= k < i ==> !svUsedInFix[k]
        {
          svUsedInFix[i] := false;
        }
        assert Used() == {};
      }
    }

    method Parse(e: Event)
      requires Valid() && (e.x.GsvSentence? ==> FourSlots(e.x.m))
      modifies this`svCount, this`numSvs, this`reports, svList, svUsedInFix
      ensures View() == Cleared(HandleSentence(old(View()), e.x), e.end)
      ensures reports == old(reports) + ReportsOf(old(View()), [e])
    {
      ghost var s0 := View();
      match e.x {
        case GsvSentence(m) => ParseGsv(m);
        case GsaSentence(fixMode, ids) => ParseGsa(fixMode, ids);
        case OtherSentence =>
        case CallbacksSet => svCount, numSvs := 0, 0;
      }
      assert View() == HandleSentence(s0, e.x);
      ReportAtEnd(e.end);
    }
  }

  method ReadLine(line: string, end: bool) returns (e: Event)
    ensures e == EventOf(line, end)
  {
    if |line| < 9 {
      return Event(OtherSentence, false);
    }
    var texts := Tokenize(line);
    var id := Get(texts, 0);
    if |id| < 5 {
      return Event(OtherSentence, false);
    }
    var beidou := id[..2] == "BD";
    var x := OtherSentence;
    if id[2..5] == "GGA" {
    } else if IsGsa(id[..5]) {
      x := ReadGsa(texts, beidou);
    } else if id[2..5] == "RMC" {
    } else if id[2..5] == "GSV" {
      x := ReadGsv(texts, beidou);
    }
    e := Event(x, end);
  }

  method Tokenize(line: string) returns (texts: seq<string>)
    ensures texts == Texts(line)
  {
    var tokens := TokenizerInit(line);
    texts := seq(|tokens|, i requires 0 <= i < |tokens| && tokens[i].p <= tokens[i].end <= |line| =>
                             line[tokens[i].p..tokens[i].end]);
  }

  method ReadId(field: string, beidou: bool) returns (id: int)
    ensures id == IdOf(field, beidou)
  {
    id := Str2Int(field);
    if beidou {
      id := id + 200;
    }
  }

  lemma {:induction false} OneMoreId(ids: seq<int>, id: int, rest: seq<int>)
    ensures ids + ([id] + rest) == (ids + [id]) + rest
  {
  }

  method ReadIds(fields: seq<string>, beidou: bool) returns (ids: seq<int>)
    ensures ids == Ids(fields, beidou, 0)
  {
    ids := [];
    var idx := 0;
    ghost var all, rest := Ids(fields, beidou, 0), Ids(fields, beidou, 0);
    while idx < |fields| && fields[idx] != ""
      invariant 0 <= idx <= |fields| && rest == Ids(fields, beidou, idx) && ids + rest == all
      decreases |fields| - idx
    {
      var id := ReadId(fields[idx], beidou);
      rest := Ids(fields, beidou, idx + 1);
      OneMoreId(ids, id, rest);
      ids := ids + [id];
      idx := idx + 1;
    }
  }

  method ReadGsa(texts: seq<string>, beidou: bool) returns (x: Sentence)
    ensures x == GsaOf(texts, beidou)
  {
    var fixMode := Str2Int(Get(texts, 2));
    var ids := ReadIds(seq(12, k requires 0 <= k < 12 => Get(texts, k + 3)), beidou);
    x := GsaSentence(fixMode, ids);
  }

  method ReadSlot(texts: seq<string>, beidou: bool, idx: nat) returns (slot: Slot)
    ensures slot == SlotOf(texts, beidou, idx)
  {
    var baseIdx := 4 * (idx + 1);
    var id := ReadId(Get(texts, baseIdx), beidou);
    var elevation := Str2Int(Get(texts, baseIdx + 1));
    var azimuth := Str2Int(Get(texts, baseIdx + 2));
    slot := Slot(id, Data(elevation, azimuth, Get(texts, baseIdx + 3)));
  }

  method ReadSlots(texts: seq<string>, beidou: bool) returns (slots: seq<Slot>)
    ensures |slots| == PER_MESSAGE && forall k :: 0 <= k < PER_MESSAGE ==> slots[k] == SlotOf(texts, beidou, k)
  {
    slots := [];
    for idx := 0 to PER_MESSAGE
      invariant |slots| == idx && forall k :: 0 <= k < idx ==> slots[k] == SlotOf(texts, beidou, k)
    {
      var slot := ReadSlot(texts, beidou, idx);
      slots := slots + [slot];
    }
  }

  method ReadGsv(texts: seq<string>, beidou: bool) returns (x: Sentence)
    ensures x == GsvSentence(GsvOf(texts, beidou))
  {
    var num := Str2Int(Get(texts, 1));
    var seqNo := Str2Int(Get(texts, 2));
    var cnt := Str2Int(Get(texts, 3));
    var slots := ReadSlots(texts, beidou);
    x := GsvSentence(Gsv(num, seqNo, cnt, slots));
  }
}
