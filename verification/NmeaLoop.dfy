/** The loop of the HAL thread over the daemon's device: which wake-ups are read, which cost a batch, and what is
    reported of the bytes that are read. */
module NmeaLoop {
  import opened NmeaFraming
  import opened SatelliteView
  import opened NmeaPipeline

  // bytes arrive at the device; the thread wakes up for it, under a report interval in seconds; or a start command
  // registers the callbacks
  datatype Wake = Arrives(bytes: string) | Readable(interval: real) | SetsCallbacks

  // the wake-ups since the last one that was read, and what read would return
  datatype Device = Device(count: real, queue: seq<string>)

  const IDLE := Device(0.0, [])

  predicate Skips(d: Device, interval: real) {
    interval > d.count + 1.0
  }

  // a wake-up that comes too early reads one batch and forgets it; any other reads until nothing is left
  function Behind(d: Device, w: Wake): Device {
    match w
    case Arrives(bytes) => d.(queue := d.queue + [bytes])
    case Readable(interval) =>
      if d.queue == [] then d
      else if Skips(d, interval) then Device(d.count + 1.0, d.queue[1..])
      else IDLE
    case SetsCallbacks => d
  }

  // the batches of a wake-up that are read and kept
  function Read(d: Device, w: Wake): seq<string> {
    if w.Readable? && !Skips(d, w.interval) then d.queue else []
  }

  function WakeEvents(r: Reader, d: Device, w: Wake): seq<Event> {
    if w.SetsCallbacks? then [Event(CallbacksSet, false)] else StreamEvents(r, Read(d, w))
  }

  function LoopEvents(r: Reader, d: Device, wakes: seq<Wake>): seq<Event>
    decreases |wakes|
  {
    if wakes == [] then []
    else WakeEvents(r, d, wakes[0]) + LoopEvents(RunBatches(r, Read(d, wakes[0])), Behind(d, wakes[0]), wakes[1..])
  }

  lemma {:induction false} WakeWellFormed(r: Reader, d: Device, w: Wake)
    ensures WellFormed(WakeEvents(r, d, w))
  {
    StreamEventsWellFormed(r, Read(d, w));
  }

  lemma {:induction false} LoopWellFormed(r: Reader, d: Device, wakes: seq<Wake>)
    ensures WellFormed(LoopEvents(r, d, wakes))
    decreases |wakes|
  {
    if wakes == [] {
    } else {
      WakeWellFormed(r, d, wakes[0]);
      LoopWellFormed(RunBatches(r, Read(d, wakes[0])), Behind(d, wakes[0]), wakes[1..]);
    }
  }

  // ----- intervals of at most a second: nothing is lost -----

  function Arrived(wakes: seq<Wake>): seq<string> {
    if wakes == [] then []
    else (if wakes[0].Arrives? then [wakes[0].bytes] else []) + Arrived(wakes[1..])
  }

  function DeviceAfter(d: Device, wakes: seq<Wake>): Device
    decreases |wakes|
  {
    if wakes == [] then d else DeviceAfter(Behind(d, wakes[0]), wakes[1..])
  }

  function ReaderAfter(r: Reader, d: Device, wakes: seq<Wake>): Reader
    decreases |wakes|
  {
    if wakes == [] then r
    else ReaderAfter(RunBatches(r, Read(d, wakes[0])), Behind(d, wakes[0]), wakes[1..])
  }

  lemma {:induction false} StreamConcat(r: Reader, a: seq<string>, b: seq<string>)
    ensures StreamEvents(r, a + b) == StreamEvents(r, a) + StreamEvents(RunBatches(r, a), b)
    ensures RunBatches(r, a + b) == RunBatches(RunBatches(r, a), b)
    decreases |a|
  {
    if a == [] {
      assert a + b == b;
    } else {
      assert (a + b)[1..] == a[1..] + b;
      StreamConcat(NmeaFraming.Run(r, a[0]), a[1..], b);
    }
  }

  predicate Prompt(w: Wake) {
    !w.SetsCallbacks? && (w.Readable? ==> w.interval <= 1.0)
  }

  lemma {:induction false} PromptWake(r: Reader, d: Device, w: Wake)
    requires d.count >= 0.0 && Prompt(w)
    ensures WakeEvents(r, d, w) == StreamEvents(r, Read(d, w)) && Behind(d, w).count >= 0.0
    ensures Read(d, w) + Behind(d, w).queue == d.queue + (if w.Arrives? then [w.bytes] else [])
  {
  }

  lemma {:induction false} SameInFront(a: seq<string>, b: seq<string>, c: seq<string>, d: seq<string>, e: seq<string>)
    requires a + b == c + d
    ensures a + (b + e) == c + (d + e)
  {
    assert a + (b + e) == (a + b) + e && c + (d + e) == (c + d) + e;
  }

  /** With a report interval of at most a second, as the default and every requested interval up to 1000 ms give, what
      the parser gets is all the bytes that arrived, batch by batch, up to those still unread. */
  lemma {:induction false} PromptReadsLoseNothing(r: Reader, d: Device, wakes: seq<Wake>)
    requires d.count >= 0.0 && forall w :: w in wakes ==> Prompt(w)
    ensures LoopEvents(r, d, wakes) + StreamEvents(ReaderAfter(r, d, wakes), DeviceAfter(d, wakes).queue)
         == StreamEvents(r, d.queue + Arrived(wakes))
    decreases |wakes|
  {
    if wakes == [] {
      assert d.queue + [] == d.queue;
    } else {
      var w, rest := wakes[0], wakes[1..];
      assert w in wakes;
      var r1, d1 := RunBatches(r, Read(d, w)), Behind(d, w);
      PromptWake(r, d, w);
      PromptReadsLoseNothing(r1, d1, rest);
      StreamConcat(r, Read(d, w), d1.queue + Arrived(rest));
      SameInFront(Read(d, w), d1.queue, d.queue, if w.Arrives? then [w.bytes] else [], Arrived(rest));
      EventsInFront(WakeEvents(r, d, w), LoopEvents(r1, d1, rest),
                    StreamEvents(ReaderAfter(r1, d1, rest), DeviceAfter(d1, rest).queue));
    }
  }

  lemma {:induction false} EventsInFront(a: seq<Event>, b: seq<Event>, c: seq<Event>)
    ensures (a + b) + c == a + (b + c)
  {
  }

  // ----- longer intervals: which wake-ups are read -----

  // the interval in whole wake-ups, at least one
  function Period(interval: real): nat {
    if interval <= 1.0 then 1 else 0 - (-interval).Floor
  }

  // wake-ups that find something to read
  function Served(d: Device, wakes: seq<Wake>): nat
    decreases |wakes|
  {
    if wakes == [] then 0
    else (if wakes[0].Readable? && d.queue != [] then 1 else 0) + Served(Behind(d, wakes[0]), wakes[1..])
  }

  lemma {:induction false} NextCount(interval: real, n: nat, queue: seq<string>)
    requires queue != []
    ensures var p := Period(interval);
      p > 0
      && (Skips(Device((n % p) as real, queue), interval) <==> (n + 1) % p != 0)
      && Behind(Device((n % p) as real, queue), Readable(interval)).count == ((n + 1) % p) as real
  {
    var p := Period(interval);
    NextRemainder(n, p);
  }

  lemma {:induction false} NextRemainder(n: nat, p: nat)
    requires p > 0
    ensures (n + 1) % p == if n % p + 1 == p then 0 else n % p + 1
  {
    var q, m := n / p, n % p;
    assert n + 1 == q * p + (m + 1);
    if m + 1 == p {
      assert n + 1 == (q + 1) * p;
      RemainderIs(n + 1, p, q + 1, 0);
    } else {
      RemainderIs(n + 1, p, q, m + 1);
    }
  }

  lemma {:induction false} RemainderIs(n: nat, p: nat, q: nat, m: nat)
    requires n == q * p + m && m < p
    ensures n % p == m
  {
    var d := n / p - q;
    assert n % p == m - d * p;
  }

  /** Under a constant interval the thread reads at every Period-th wake-up that finds something to read, and only
      there; every other one costs a batch. */
  lemma {:induction false} EveryPeriodthWakeReads(interval: real, d: Device, wakes: seq<Wake>, n: nat)
    requires d.count == (n % Period(interval)) as real
    requires forall w :: w in wakes && w.Readable? ==> w.interval == interval
    ensures var t := DeviceAfter(d, wakes);
      var served := n + Served(d, wakes);
      && t.count == (served % Period(interval)) as real
      && (t.queue != [] ==>
            Read(t, Readable(interval)) == if (served + 1) % Period(interval) == 0 then t.queue else [])
    decreases |wakes|
  {
    if wakes == [] {
      if d.queue != [] {
        NextCount(interval, n, d.queue);
      }
    } else {
      var w := wakes[0];
      assert w in wakes;
      if w.Readable? && d.queue != [] {
        NextCount(interval, n, d.queue);
        EveryPeriodthWakeReads(interval, Behind(d, w), wakes[1..], n + 1);
      } else {
        EveryPeriodthWakeReads(interval, Behind(d, w), wakes[1..], n);
      }
    }
  }

  // what a wake-up takes from the device, kept or not
  function Taken(d: Device, w: Wake): seq<string> {
    if !w.Readable? || d.queue == [] then [] else if Skips(d, w.interval) then [d.queue[0]] else d.queue
  }

  function AllTaken(d: Device, wakes: seq<Wake>): seq<string>
    decreases |wakes|
  {
    if wakes == [] then [] else Taken(d, wakes[0]) + AllTaken(Behind(d, wakes[0]), wakes[1..])
  }

  /** Batches are taken in the order they arrive, each once: a wake-up that comes too early takes the oldest one, any
      other all there are. */
  lemma {:induction false} BatchesInOrder(d: Device, wakes: seq<Wake>)
    ensures AllTaken(d, wakes) + DeviceAfter(d, wakes).queue == d.queue + Arrived(wakes)
    decreases |wakes|
  {
    if wakes == [] {
      assert [] + d.queue == d.queue + [];
    } else {
      var w, rest := wakes[0], wakes[1..];
      var d1 := Behind(d, w);
      BatchesInOrder(d1, rest);
      SameInFront(Taken(d, w), d1.queue, d.queue, if w.Arrives? then [w.bytes] else [], Arrived(rest));
      Regroup(Taken(d, w), AllTaken(d1, rest), DeviceAfter(d1, rest).queue);
    }
  }

  lemma {:induction false} Regroup(a: seq<string>, b: seq<string>, c: seq<string>)
    ensures (a + b) + c == a + (b + c)
  {
  }

  // ----- the loop -----

  method ServeWake(reader: NmeaReader, sv: SvReader, count: real, queue: seq<string>, w: Wake)
    returns (count': real, queue': seq<string>)
    requires reader.Valid() && sv.Valid()
    modifies reader, reader.inb, sv, sv.svList, sv.svUsedInFix
    ensures reader.Valid() && sv.Valid() && Device(count', queue') == Behind(Device(count, queue), w)
    ensures reader.View() == RunBatches(old(reader.View()), Read(Device(count, queue), w))
    ensures var events := WakeEvents(old(reader.View()), Device(count, queue), w);
      && WellFormed(events) && sv.View() == SatelliteView.Run(old(sv.View()), events)
      && sv.reports == old(sv.reports) + ReportsOf(old(sv.View()), events)
  {
    count', queue' := count, queue;
    match w {
      case Arrives(bytes) =>
        queue' := queue + [bytes];
        assert sv.reports + [] == sv.reports;
      case SetsCallbacks =>
        ghost var v := sv.View();
        sv.Parse(Event(CallbacksSet, false));
        OneEvent(v, Event(CallbacksSet, false));
      case Readable(interval) =>
        if queue == [] {
          assert sv.reports + [] == sv.reports;
          return;
        }
        count' := count + 1.0;
        if interval > count' {
          queue' := queue[1..];
          assert sv.reports + [] == sv.reports;
          return;
        }
        count' := 0.0;
        ReadBatches(reader, sv, queue);
        queue' := [];
    }
  }

  // the reports behind the wake-ups that are left
  ghost predicate WakesLeft(r: Reader, d: Device, v: SatelliteView.State, reports: seq<Report>, wakes: seq<Wake>,
                            all: seq<Report>) {
    Roomy(v) && WellFormed(LoopEvents(r, d, wakes)) && reports + ReportsOf(v, LoopEvents(r, d, wakes)) == all
  }

  lemma {:induction false} OneWakeLess(r: Reader, d: Device, v: SatelliteView.State, reports: seq<Report>,
                                       wakes: seq<Wake>, all: seq<Report>)
    requires wakes != [] && WakesLeft(r, d, v, reports, wakes, all)
    ensures var events := WakeEvents(r, d, wakes[0]);
      && WellFormed(events)
      && WakesLeft(RunBatches(r, Read(d, wakes[0])), Behind(d, wakes[0]), SatelliteView.Run(v, events),
                   reports + ReportsOf(v, events), wakes[1..], all)
  {
    var events := WakeEvents(r, d, wakes[0]);
    var rest := LoopEvents(RunBatches(r, Read(d, wakes[0])), Behind(d, wakes[0]), wakes[1..]);
    WakeWellFormed(r, d, wakes[0]);
    LoopWellFormed(RunBatches(r, Read(d, wakes[0])), Behind(d, wakes[0]), wakes[1..]);
    RunConcat(v, events, rest);
    SatelliteView.Reassociate(reports, ReportsOf(v, events), ReportsOf(SatelliteView.Run(v, events), rest));
  }

  /** The reports a new HAL thread makes, whatever arrives, whenever it wakes up, under whatever intervals and start
      commands, are those of the batches it reads. */
  method ReadReports(blank: Sat, wakes: seq<Wake>) returns (reports: seq<Report>)
    ensures WellFormed(LoopEvents(FRESH, IDLE, wakes))
    ensures reports == ReportsOf(Start(blank), LoopEvents(FRESH, IDLE, wakes))
  {
    var reader := new NmeaReader();
    var sv := new SvReader(blank);
    var count, queue: seq<string> := 0.0, [];
    LoopWellFormed(FRESH, IDLE, wakes);
    ghost var all := ReportsOf(Start(blank), LoopEvents(FRESH, IDLE, wakes));
    assert sv.View() == Start(blank) && wakes[0..] == wakes;
    for n := 0 to |wakes|
      invariant reader.Valid() && sv.Valid() && fresh(reader) && fresh(reader.inb)
      invariant fresh(sv) && fresh(sv.svList) && fresh(sv.svUsedInFix)
      invariant WakesLeft(reader.View(), Device(count, queue), sv.View(), sv.reports, wakes[n..], all)
    {
      OneWakeLess(reader.View(), Device(count, queue), sv.View(), sv.reports, wakes[n..], all);
      assert wakes[n..][1..] == wakes[n + 1..] && wakes[n..][0] == wakes[n];
      count, queue := ServeWake(reader, sv, count, queue, wakes[n]);
    }
    assert sv.reports + [] == sv.reports;
    reports := sv.reports;
  }
}
