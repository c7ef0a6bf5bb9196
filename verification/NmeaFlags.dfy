/** What the reports of printed sentences say about each satellite, in terms of the sentences printed: which ones are
    listed, of which constellation, and which ones as used in the fix. */
module NmeaFlags {
  import NmeaFraming
  import opened SatelliteView
  import opened NmeaPipeline
  import opened NmeaText

  // ----- which satellites are listed -----

  // the numbers of GPS, GLONASS and Beidou; 200 lies between the last two
  predicate Listed(id: int) {
    1 <= id <= 32 || 65 <= id <= 96 || 200 <= id <= 232
  }

  // a satellite, and the position of the group that lists it
  datatype Source = Source(at: nat, slot: Slot)

  function SourcesIn(sats: seq<Slot>, at: nat): seq<Source> {
    if sats == [] then []
    else
      var n := |sats| - 1;
      SourcesIn(sats[..n], at) + (if Listed(sats[n].id) then [Source(at, sats[n])] else [])
  }

  // the satellites of all groups, in the order printed
  function Sources(said: seq<Said>): seq<Source> {
    if said == [] then []
    else
      var n := |said| - 1;
      Sources(said[..n]) + (if said[n].InView? then SourcesIn(said[n].sats, n) else [])
  }

  // ----- which ones are used -----

  // a GSA sentence in front of position k, with a fix, names the satellite in front of any unknown number
  predicate UsedBefore(said: seq<Said>, k: nat, id: int) {
    exists j :: 0 <= j < k && j < |said| && said[j].Active? && (said[j].fixMode == 2 || said[j].fixMode == 3)
                && InFixRange(id) && Named(said[j].ids, id)
  }

  predicate SaysOf(sat: Sat, said: seq<Said>, x: Source) {
    && sat.id == x.slot.id && sat.data == x.slot.data && (sat.used <==> UsedBefore(said, x.at, x.slot.id))
    && sat.constellation == (if sat.id <= 32 then Gps else if sat.id <= 200 then Glonass else Beidou)
  }

  // the list is that of the sources, as far as there is room
  predicate Shows(list: seq<Sat>, said: seq<Said>) {
    var sources := Sources(said);
    && |list| == (if |sources| <= GNSS_MAX_SVS then |sources| else GNSS_MAX_SVS)
    && forall i :: 0 <= i < |list| ==> SaysOf(list[i], said, sources[i])
  }

  const NOTHING := Spec([], {})

  lemma {:induction false} HearLast(v: Spec, said: seq<Said>, x: Said)
    ensures HearAll(v, said + [x]) == Hear(HearAll(v, said), x)
    decreases |said|
  {
    if said == [] {
      assert (said + [x])[1..] == [];
    } else {
      assert (said + [x])[1..] == said[1..] + [x];
      HearLast(Hear(v, said[0]), said[1..], x);
    }
  }

  lemma {:induction false} HearConcat(v: Spec, a: seq<Said>, b: seq<Said>)
    ensures HearAll(v, a + b) == HearAll(HearAll(v, a), b)
    decreases |a|
  {
    if a == [] {
      assert a + b == b;
    } else {
      assert (a + b)[1..] == a[1..] + b;
      HearConcat(Hear(v, a[0]), a[1..], b);
    }
  }

  lemma {:induction false} UsedBeforeStays(said: seq<Said>, more: seq<Said>, k: nat, id: int)
    requires k <= |said|
    ensures UsedBefore(said + more, k, id) <==> UsedBefore(said, k, id)
  {
    var all := said + more;
    if UsedBefore(all, k, id) {
      var j :| 0 <= j < k && all[j].Active? && (all[j].fixMode == 2 || all[j].fixMode == 3)
               && InFixRange(id) && Named(all[j].ids, id);
      assert all[j] == said[j];
    }
    if UsedBefore(said, k, id) {
      var j :| 0 <= j < k && said[j].Active? && (said[j].fixMode == 2 || said[j].fixMode == 3)
               && InFixRange(id) && Named(said[j].ids, id);
      assert all[j] == said[j];
    }
  }

  lemma {:induction false} UsedBeforeLast(said: seq<Said>, x: Said, id: int)
    ensures UsedBefore(said + [x], |said| + 1, id) <==>
            || UsedBefore(said, |said|, id)
            || (x.Active? && (x.fixMode == 2 || x.fixMode == 3) && InFixRange(id) && Named(x.ids, id))
  {
    var all, n := said + [x], |said|;
    assert all[n] == x;
    UsedBeforeStays(said, [x], n, id);
    if UsedBefore(all, n + 1, id) && !UsedBefore(all, n, id) {
      var j :| 0 <= j < n + 1 && all[j].Active? && (all[j].fixMode == 2 || all[j].fixMode == 3)
               && InFixRange(id) && Named(all[j].ids, id);
      assert j == n;
    }
  }

  /** The satellites marked behind any sentences are those a GSA sentence among them has named as used. */
  lemma {:induction false} UsedIs(said: seq<Said>, id: int)
    ensures id in HearAll(NOTHING, said).used <==> UsedBefore(said, |said|, id)
    decreases |said|
  {
    if said == [] {
    } else {
      var n := |said| - 1;
      var front, x := said[..n], said[n];
      assert front + [x] == said;
      UsedIs(front, id);
      HearLast(NOTHING, front, x);
      UsedBeforeLast(front, x, id);
      if x.Active? {
        MarkedIs(HearAll(NOTHING, front).used, x.ids, id);
      }
    }
  }

  // the list before it is cut
  function Uncut(said: seq<Said>): seq<Sat> {
    if said == [] then []
    else
      var n := |said| - 1;
      Uncut(said[..n])
      + (if said[n].InView? then AcceptedOf(said[n].sats, HearAll(NOTHING, said[..n]).used) else [])
  }

  lemma {:induction false} CutTwice(a: seq<Sat>, b: seq<Sat>)
    ensures Cut(Cut(a) + b) == Cut(a + b)
  {
  }

  lemma {:induction false} PendingIsCut(said: seq<Said>)
    ensures HearAll(NOTHING, said).pending == Cut(Uncut(said))
    decreases |said|
  {
    if said == [] {
    } else {
      var n := |said| - 1;
      var front, x := said[..n], said[n];
      assert front + [x] == said;
      PendingIsCut(front);
      HearLast(NOTHING, front, x);
      if x.InView? {
        CutTwice(Uncut(front), AcceptedOf(x.sats, HearAll(NOTHING, front).used));
      } else {
        assert Uncut(front) + [] == Uncut(front);
      }
    }
  }

  predicate AllSaid(list: seq<Sat>, said: seq<Said>, sources: seq<Source>) {
    |list| == |sources| && forall i :: 0 <= i < |list| ==> SaysOf(list[i], said, sources[i])
  }

  lemma {:induction false} AllSaidConcat(a: seq<Sat>, b: seq<Sat>, said: seq<Said>, x: seq<Source>, y: seq<Source>)
    requires AllSaid(a, said, x) && AllSaid(b, said, y)
    ensures AllSaid(a + b, said, x + y)
  {
  }

  lemma {:induction false} OneListed(s: Slot, used: set<int>, said: seq<Said>, at: nat)
    requires s.id in used <==> UsedBefore(said, at, s.id)
    ensures Acceptable(s.id) <==> Listed(s.id)
    ensures Listed(s.id) ==> SaysOf(SatOf(s, used), said, Source(at, s))
  {
  }

  // a group
  lemma {:induction false} AcceptedSaid(sats: seq<Slot>, used: set<int>, said: seq<Said>, at: nat)
    requires forall id :: id in used <==> UsedBefore(said, at, id)
    ensures AllSaid(AcceptedOf(sats, used), said, SourcesIn(sats, at))
    decreases |sats|
  {
    if sats == [] {
    } else {
      var n := |sats| - 1;
      AcceptedSaid(sats[..n], used, said, at);
      OneListed(sats[n], used, said, at);
      var sat, source := SatOf(sats[n], used), Source(at, sats[n]);
      if Listed(sats[n].id) {
        AllSaidConcat(AcceptedOf(sats[..n], used), [sat], said, SourcesIn(sats[..n], at), [source]);
      } else {
        AllSaidConcat(AcceptedOf(sats[..n], used), [], said, SourcesIn(sats[..n], at), []);
      }
    }
  }

  lemma {:induction false} SourcesStand(said: seq<Said>, i: nat)
    requires i < |Sources(said)|
    ensures Sources(said)[i].at < |said|
    decreases |said|
  {
    var n := |said| - 1;
    var front := Sources(said[..n]);
    if i < |front| {
      SourcesStand(said[..n], i);
    } else {
      SourcesAt(said[n].sats, n);
    }
  }

  lemma {:induction false} SourcesAt(sats: seq<Slot>, at: nat)
    ensures forall i :: 0 <= i < |SourcesIn(sats, at)| ==> SourcesIn(sats, at)[i].at == at
    decreases |sats|
  {
    if sats == [] {
    } else {
      SourcesAt(sats[..|sats| - 1], at);
    }
  }

  lemma {:induction false} SaidStays(list: seq<Sat>, said: seq<Said>, more: seq<Said>)
    requires AllSaid(list, said, Sources(said))
    ensures AllSaid(list, said + more, Sources(said))
  {
    forall i | 0 <= i < |list| ensures SaysOf(list[i], said + more, Sources(said)[i]) {
      SourcesStand(said, i);
      UsedBeforeStays(said, more, Sources(said)[i].at, Sources(said)[i].slot.id);
    }
  }

  lemma {:induction false} UncutSaid(said: seq<Said>)
    ensures AllSaid(Uncut(said), said, Sources(said))
    decreases |said|
  {
    if said == [] {
    } else {
      var n := |said| - 1;
      var front, x := said[..n], said[n];
      assert front + [x] == said;
      UncutSaid(front);
      SaidStays(Uncut(front), front, [x]);
      if x.InView? {
        var used := HearAll(NOTHING, front).used;
        forall id ensures id in used <==> UsedBefore(said, n, id) {
          UsedIs(front, id);
          UsedBeforeStays(front, [x], n, id);
        }
        AcceptedSaid(x.sats, used, said, n);
        AllSaidConcat(Uncut(front), AcceptedOf(x.sats, used), said, Sources(front), SourcesIn(x.sats, n));
      } else {
        AllSaidConcat(Uncut(front), [], said, Sources(front), []);
      }
    }
  }

  /** What is pending behind any sentences is what they show. */
  lemma {:induction false} PendingShows(said: seq<Said>)
    ensures Shows(HearAll(NOTHING, said).pending, said)
  {
    PendingIsCut(said);
    UncutSaid(said);
  }

  // ----- the reports of a stream of batches -----

  // since: the sentences since the last report
  predicate Explained(reports: seq<seq<Sat>>, since: seq<Said>, batches: seq<seq<Said>>)
    decreases |batches|
  {
    if batches == [] then reports == []
    else
      var said := since + batches[0];
      if Sources(said) == [] then Explained(reports, said, batches[1..])
      else reports != [] && Shows(reports[0], said) && Explained(reports[1..], [], batches[1..])
  }

  lemma {:induction false} ReportsExplained(since: seq<Said>, batches: seq<seq<Said>>)
    requires Sources(since) == []
    ensures Explained(Reported(HearAll(NOTHING, since), batches), since, batches)
    decreases |batches|
  {
    if batches == [] {
    } else {
      var said := since + batches[0];
      HearConcat(NOTHING, since, batches[0]);
      PendingShows(said);
      var reports := Reported(HearAll(NOTHING, since), batches);
      if Sources(said) == [] {
        ReportsExplained(said, batches[1..]);
      } else {
        ReportsExplained([], batches[1..]);
        assert reports[1..] == Reported(NOTHING, batches[1..]);
      }
    }
  }

  /** Printed sentences, read byte by byte: behind each batch that ends with satellites listed since the last report
      there is one report, which lists exactly these in the order printed, as far as there is room, with their numbers,
      constellations, angles and signals, and says of each that it is used exactly if a GSA sentence with a fix printed
      its number since the last report, in front of its group and of any unknown number. */
  lemma {:induction false} PrintedSatellitesAreFlagged(blank: Sat, batches: seq<seq<Said>>,
                                                       check: seq<string> -> Checksum)
    returns (expected: seq<seq<Sat>>)
    requires Batches(batches) && forall lines :: lines in AllLines(batches, check) ==> AllShort(lines)
    ensures Explained(expected, [], batches)
    ensures var events := StreamEvents(NmeaFraming.FRESH, BatchTexts(AllLines(batches, check)));
      WellFormed(events) && Show(ReportsOf(Start(blank), events), expected)
  {
    expected := Reported(NOTHING, batches);
    PrintedSatellitesAreReported(blank, batches, check);
    ReportsExplained([], batches);
  }
}
