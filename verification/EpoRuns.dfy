/** Whole runs of the download: what requests of the framework thread and reports of the daemon do to the merged file
    wherever they fall, and what a completed download leaves on disk. */
module EpoRuns {
  import opened Bytes
  import opened Options
  import opened EpoDownload

  // ----- what is promised -----

  // an accepted piece that is not counted yet: the merged file holds the counted pieces and this one
  ghost predicate Counted(s: State) {
    Sound(s.files.pieces, s.count + 1) && s.files.merged == Some(Concat(s.files.pieces, s.count + 1))
  }

  predicate Completes(m: Machine, e: Event) {
    m.pc.Checked? && e.ThreadRuns? && !MoreToFetch(m.s.count + 1, e.x.days)
  }

  /** Outside an append and its check the merged file holds the counted pieces, and a download that is declared done
      leaves the pieces it asked for. */
  ghost predicate StepIntact(m: Machine, e: Event, zone: int) {
    var t := Handle(m, e, zone);
    && (!t.pc.Appended? && !t.pc.Checked? ==> Merged(t.s))
    && (Completes(m, e) ==>
          && Sound(m.s.files.pieces, m.s.count + 1)
          && t.s.files.merged == Some(Concat(m.s.files.pieces, m.s.count + 1)))
  }

  ghost predicate AlwaysIntact(m: Machine, events: seq<Event>, zone: int)
    decreases |events|
  {
    events == [] || (StepIntact(m, events[0], zone) && AlwaysIntact(Handle(m, events[0], zone), events[1..], zone))
  }

  // ----- what breaks the promise -----

  // the piece of the update, whether a request fell in front of its append, and whether the merged file was unlinked
  // behind it
  datatype Watch = Watch(name: nat, early: bool, behind: bool)

  const QUIET := Watch(0, false, false)

  predicate BeforeAppend(pc: Pc) {
    pc.Transfer? || pc.Landed?
  }

  predicate BehindAppend(pc: Pc) {
    pc.Appended? || pc.Checked?
  }

  function Watched(m: Machine, w: Watch, e: Event): Watch {
    match e
    case ThreadRuns(_) => if m.pc.Top? || m.pc.BeforeResume? then Watch(m.s.count, false, false) else w
    case StartRequests =>
      if BeforeAppend(m.pc) then w.(early := true) else if BehindAppend(m.pc) then w.(behind := true) else w
    case RetryAlarm => w
    case UpdateDone => if BehindAppend(m.pc) && ReportUnlinks(m.s) then w.(behind := true) else w
  }

  function Watching(m: Machine, w: Watch, events: seq<Event>, zone: int): Watch
    decreases |events|
  {
    if events == [] then w else Watching(Handle(m, events[0], zone), Watched(m, w, events[0]), events[1..], zone)
  }

  // the thread rejects a piece too short for a record of which something was appended; or it counts a piece whose file
  // is gone, or that was not the first one when a request made it the first
  predicate Harms(m: Machine, w: Watch, e: Event) {
    var pieces := m.s.files.pieces;
    && e.ThreadRuns?
    && (match m.pc
        case Appended(name, _) => m.s.count > 0 && name in pieces && 0 < |pieces[name]| < RECORD
        case Checked(_) => w.behind || (w.early && !FirstPiece(pieces, w.name))
        case _ => false)
  }

  predicate FirstPiece(pieces: map<nat, seq<Byte>>, name: nat) {
    name == 0 || (0 in pieces && name in pieces && pieces[name] == pieces[0])
  }

  predicate Harmed(m: Machine, w: Watch, events: seq<Event>, zone: int)
    decreases |events|
  {
    events != [] &&
    (Harms(m, w, events[0]) || Harmed(Handle(m, events[0], zone), Watched(m, w, events[0]), events[1..], zone))
  }

  // ----- the invariant -----

  ghost predicate Inv(m: Machine, w: Watch) {
    var s, pieces := m.s, m.s.files.pieces;
    match m.pc
    case Transfer(name, _) => Merged(s) && InUpdate(s, w, name)
    case Landed(name, _) => Merged(s) && InUpdate(s, w, name) && name in pieces
    case Appended(name, _) =>
      name == w.name && name in pieces && (if !w.early && !w.behind then name == s.count && OneMore(s) else Alone(s, w))
    case Checked(_) =>
      && w.name in pieces && |pieces[w.name]| >= RECORD
      && (if !w.early && !w.behind then w.name == s.count && Counted(s) else Alone(s, w))
    case _ => Merged(s)
  }

  predicate InUpdate(s: State, w: Watch, name: nat) {
    name == w.name && !w.behind && s.count == if w.early then 0 else name
  }

  // a request has cleared the count, or the first piece has been unlinked
  predicate Alone(s: State, w: Watch)
    requires w.name in s.files.pieces
  {
    s.count == 0 && s.files.merged == if w.behind then None else Some(s.files.pieces[w.name])
  }

  lemma {:induction false} LandKeepsInv(m: Machine, w: Watch, x: Input, zone: int)
    requires Inv(m, w) && m.pc.Transfer?
    ensures Inv(ThreadStep(m, x, zone), w)
  {
    var s := m.s;
    if s.count == 0 {
    } else if !x.o.Fetched? {
      FailedUpdate(s, x.o, x.days, zone);
    } else {
      ConcatIgnoresOthers(s.files.pieces, Land(s, s.count, x.o).files.pieces, s.count);
    }
  }

  lemma {:induction false} AppendKeepsInv(m: Machine, w: Watch, x: Input, zone: int)
    requires Inv(m, w) && m.pc.Landed?
    ensures Inv(ThreadStep(m, x, zone), w)
  {
    if !w.early {
      var p := m.s.files.pieces[m.s.count];
      AppendMakesOneMore(m.s, p);
      assert m.s.files.pieces[m.s.count := p] == m.s.files.pieces;
      assert Land(m.s, m.s.count, Fetched(p)) == m.s;
    }
  }

  lemma {:induction false} CheckKeepsInv(m: Machine, w: Watch, x: Input, zone: int)
    requires Inv(m, w) && m.pc.Appended? && PlausibleZone(zone)
    ensures Merged(ThreadStep(m, x, zone).s) || ThreadStep(m, x, zone).pc.Checked? <==> !Harms(m, w, ThreadRuns(x))
    ensures !Harms(m, w, ThreadRuns(x)) ==> Inv(ThreadStep(m, x, zone), w)
  {
    if w.early || w.behind {
    } else if Rejected(m.s, m.s.count, zone) {
      RejectedPiece(m.s, zone);
    } else {
      AcceptedPieceExtends(m.s, zone);
    }
  }

  // the increment counts a piece the merged file does not end with, exactly in the listed cases
  lemma {:induction false} CountedUnlessHarmed(m: Machine, w: Watch, x: Input)
    requires Inv(m, w) && m.pc.Checked?
    ensures Counted(m.s) <==> !Harms(m, w, ThreadRuns(x))
  {
    var pieces := m.s.files.pieces;
    if 0 in pieces {
      assert Concat(pieces, 1) == Concat(pieces, 0) + pieces[0] == pieces[0];
    }
  }

  lemma {:induction false} IncrementIntact(m: Machine, x: Input, zone: int)
    requires m.pc.Checked?
    ensures StepIntact(m, ThreadRuns(x), zone) <==> Counted(m.s)
  {
  }

  // what one event of the other threads changes
  ghost predicate Framed(m: Machine, w: Watch, n: Machine, v: Watch, asked: bool, unlinked: bool) {
    && n.pc == m.pc && v.name == w.name
    && n.s.files.pieces == m.s.files.pieces && n.s.flags.failed == m.s.flags.failed
    && n.s.count == (if asked then 0 else m.s.count)
    && v.early == (w.early || (BeforeAppend(m.pc) && asked))
    && v.behind == (w.behind || (BehindAppend(m.pc) && unlinked))
  }

  lemma {:induction false} OutsideKeepsInv(m: Machine, w: Watch, e: Event, zone: int)
    requires Inv(m, w) && !e.ThreadRuns?
    ensures Inv(Handle(m, e, zone), Watched(m, w, e))
    ensures Framed(m, w, Handle(m, e, zone), Watched(m, w, e), e.StartRequests?,
                   e.StartRequests? || (e.UpdateDone? && ReportUnlinks(m.s)))
  {
  }

  lemma {:induction false} IdleKeepsInv(m: Machine, w: Watch, x: Input, zone: int)
    requires Inv(m, w) && !BeforeAppend(m.pc) && !BehindAppend(m.pc)
    ensures Inv(ThreadStep(m, x, zone), Watched(m, w, ThreadRuns(x)))
  {
  }

  /** Each step and each event keeps the promise exactly if it is not one of those that break it. */
  lemma {:induction false} StepKeepsInv(m: Machine, w: Watch, e: Event, zone: int)
    requires Inv(m, w) && PlausibleZone(zone)
    ensures StepIntact(m, e, zone) <==> !Harms(m, w, e)
    ensures !Harms(m, w, e) ==> Inv(Handle(m, e, zone), Watched(m, w, e))
  {
    if !e.ThreadRuns? {
      OutsideKeepsInv(m, w, e, zone);
      KeptIsIntact(m, w, e, zone);
    } else if m.pc.Appended? {
      CheckKeepsInv(m, w, e.x, zone);
    } else if m.pc.Checked? {
      CountedUnlessHarmed(m, w, e.x);
      IncrementIntact(m, e.x, zone);
    } else {
      if m.pc.Transfer? {
        LandKeepsInv(m, w, e.x, zone);
      } else if m.pc.Landed? {
        AppendKeepsInv(m, w, e.x, zone);
      } else {
        IdleKeepsInv(m, w, e.x, zone);
      }
      KeptIsIntact(m, w, e, zone);
    }
  }

  lemma {:induction false} KeptIsIntact(m: Machine, w: Watch, e: Event, zone: int)
    requires Inv(Handle(m, e, zone), Watched(m, w, e)) && !Completes(m, e)
    ensures StepIntact(m, e, zone)
  {
  }

  // ----- whole runs -----

  lemma {:induction false} RunIntact(m: Machine, w: Watch, events: seq<Event>, zone: int)
    requires Inv(m, w) && PlausibleZone(zone)
    ensures AlwaysIntact(m, events, zone) <==> !Harmed(m, w, events, zone)
    ensures !Harmed(m, w, events, zone) ==> Inv(Run(m, events, zone), Watching(m, w, events, zone))
    decreases |events|
  {
    if events == [] {
    } else {
      StepKeepsInv(m, w, events[0], zone);
      if !Harms(m, w, events[0]) {
        RunIntact(Handle(m, events[0], zone), Watched(m, w, events[0]), events[1..], zone);
      }
    }
  }

  /** In every interleaving of the thread's steps with requests, reports and alarms: the merged file is exactly the
      counted pieces in order, with less than a day between one piece's end and the next one's start, and holds the
      pieces asked for whenever a download is declared done, if and only if the run has none of the harmful steps. */
  lemma {:induction false} RunKeepsMerged(files: Files, events: seq<Event>, zone: int)
    requires PlausibleZone(zone)
    ensures AlwaysIntact(Machine(Init(files), Top), events, zone)
       <==> !Harmed(Machine(Init(files), Top), QUIET, events, zone)
  {
    RunIntact(Machine(Init(files), Top), QUIET, events, zone);
  }

  /** Under a constant day setting the count stays below the number of pieces that setting asks for, whatever requests
      fall in between. */
  lemma {:induction false} RunKeepsCount(m: Machine, events: seq<Event>, days: nat, zone: int)
    requires m.s.count < Wanted(days)
    requires forall e :: e in events && e.ThreadRuns? ==> e.x.days == days
    ensures Run(m, events, zone).s.count < Wanted(days)
    decreases |events|
  {
    if events == [] {
    } else {
      var e := events[0];
      assert e in events;
      assert Handle(m, e, zone).s.count < Wanted(days);
      RunKeepsCount(Handle(m, e, zone), events[1..], days, zone);
    }
  }

  /** Whenever a download without harmful steps so far is declared done, in whichever block of the thread, the merged
      file holds exactly max(1, ceil(days / 3)) pieces, ten at most, in order and without gaps, if and only if the
      last step is not harmful either. Either way the download counts as over. */
  lemma {:induction false} CompletedFileHoldsAll(files: Files, events: seq<Event>, x: Input, zone: int)
    requires PlausibleZone(zone) && !Harmed(Machine(Init(files), Top), QUIET, events, zone)
    requires forall e :: e in events && e.ThreadRuns? ==> e.x.days == x.days
    requires Completes(Run(Machine(Init(files), Top), events, zone), ThreadRuns(x))
    ensures var m := Run(Machine(Init(files), Top), events, zone);
      var t := ThreadStep(m, x, zone).s;
      && ((Sound(m.s.files.pieces, Wanted(x.days))
           && t.files.merged == Some(Concat(m.s.files.pieces, Wanted(x.days))))
          <==> !Harms(m, Watching(Machine(Init(files), Top), QUIET, events, zone), ThreadRuns(x)))
      && t.count == 0 && !t.flags.failed && !t.flags.updated
  {
    var m, w := Run(Machine(Init(files), Top), events, zone), Watching(Machine(Init(files), Top), QUIET, events, zone);
    RunIntact(Machine(Init(files), Top), QUIET, events, zone);
    RunKeepsCount(Machine(Init(files), Top), events, x.days, zone);
    assert m.s.count + 1 == Wanted(x.days);
    CountedUnlessHarmed(m, w, x);
  }

  // ----- one update, and the events that fall into it -----

  // the events at each place: in the transfer, in front of the append, of the check, and of the increment
  datatype Places = Places(transfer: seq<Event>, landed: seq<Event>, appended: seq<Event>, checked: seq<Event>)

  predicate Outside(events: seq<Event>) {
    forall e :: e in events ==> !e.ThreadRuns?
  }

  predicate AllOutside(d: Places) {
    Outside(d.transfer) && Outside(d.landed) && Outside(d.appended) && Outside(d.checked)
  }

  // behind a rejection, or in front of the increment
  function DisturbedUpdate(m: Machine, x: Input, zone: int, d: Places): Machine {
    var landed := ThreadStep(Run(m, d.transfer, zone), x, zone);
    var appended := ThreadStep(Run(landed, d.landed, zone), x, zone);
    var checked := ThreadStep(Run(appended, d.appended, zone), x, zone);
    if checked.pc.Checked? then Run(checked, d.checked, zone) else checked
  }

  ghost predicate UpdateIntact(m: Machine, x: Input, zone: int) {
    if m.pc.Checked? then StepIntact(m, ThreadRuns(x), zone) else Merged(m.s)
  }

  predicate Early(d: Places) {
    StartRequests in d.transfer || StartRequests in d.landed
  }

  predicate Unlinked(s: State, events: seq<Event>) {
    StartRequests in events || (UpdateDone in events && ReportUnlinks(s))
  }

  predicate Harmless(s: State, p: seq<Byte>, zone: int, d: Places) {
    var s1 := if Early(d) then s.(count := 0) else s;
    if |p| < RECORD then Early(d) || StartRequests in d.appended || !Spoils(s, Fetched(p))
    else
      || (!Early(d) && StartRequests !in d.appended && Changed(Land(s, s.count, Fetched(p)), s.count, zone))
      || (!Unlinked(s1, d.appended) && !Unlinked(s1, d.checked)
          && (Early(d) ==> FirstPiece(s.files.pieces[s.count := p], s.count)))
  }

  // events of the other threads at one place
  lemma {:induction false} OutsideEvents(m: Machine, w: Watch, events: seq<Event>, zone: int)
    requires Inv(m, w) && Outside(events)
    ensures var n, v := Run(m, events, zone), Watching(m, w, events, zone);
      Inv(n, v) && Framed(m, w, n, v, StartRequests in events, Unlinked(m.s, events))
    decreases |events|
  {
    if events == [] {
    } else {
      var e, rest := events[0], events[1..];
      assert e in events && forall f :: f in events <==> f == e || f in rest;
      OutsideKeepsInv(m, w, e, zone);
      var n, v := Handle(m, e, zone), Watched(m, w, e);
      OutsideEvents(n, v, rest, zone);
      FramedTwice(m, w, n, v, Run(n, rest, zone), Watching(n, v, rest, zone), e, rest);
    }
  }

  lemma {:induction false} FramedTwice(m: Machine, w: Watch, m1: Machine, w1: Watch, m2: Machine, w2: Watch, e: Event,
                                       rest: seq<Event>)
    requires Framed(m, w, m1, w1, e.StartRequests?, e.StartRequests? || (e.UpdateDone? && ReportUnlinks(m.s)))
    requires Framed(m1, w1, m2, w2, StartRequests in rest, Unlinked(m1.s, rest))
    ensures Framed(m, w, m2, w2, e.StartRequests? || StartRequests in rest, Unlinked(m.s, [e] + rest))
  {
    assert forall f :: f in [e] + rest <==> f == e || f in rest;
  }

  /** Where requests and reports may fall into the update of a piece. In front of the append a request is harmless for
      the first piece only, a report always; behind it neither is, unless the piece is rejected or, for a report,
      something is counted or the last update failed. */
  lemma {:induction false} RequestDuringUpdate(s: State, block: Block, x: Input, zone: int, d: Places)
    requires Merged(s) && PlausibleZone(zone) && AllOutside(d) && x.o.Fetched?
    ensures UpdateIntact(DisturbedUpdate(Machine(s, Transfer(s.count, block)), x, zone, d), x, zone)
       <==> Harmless(s, x.o.piece, zone, d)
  {
    var m, w := UpToCheck(s, block, x, zone, d);
    CheckKeepsInv(m, w, x, zone);
    DecisionAtCheck(s, m, w, x, zone, d);
    var checked := ThreadStep(m, x, zone);
    if checked.pc.Checked? {
      InFrontOfIncrement(checked, w, x, zone, d.checked);
    }
  }

  lemma {:induction false} InFrontOfIncrement(m: Machine, w: Watch, x: Input, zone: int, events: seq<Event>)
    requires Inv(m, w) && m.pc.Checked? && Outside(events)
    ensures var n := Run(m, events, zone);
      n.pc.Checked? &&
      (StepIntact(n, ThreadRuns(x), zone) <==>
       !w.behind && !Unlinked(m.s, events) && (w.early ==> FirstPiece(m.s.files.pieces, w.name)))
  {
    OutsideEvents(m, w, events, zone);
    var n, v := Run(m, events, zone), Watching(m, w, events, zone);
    CountedUnlessHarmed(n, v, x);
    IncrementIntact(n, x, zone);
  }

  // in front of the check
  lemma {:induction false} UpToCheck(s: State, block: Block, x: Input, zone: int, d: Places)
    returns (n: Machine, v: Watch)
    requires Merged(s) && AllOutside(d) && x.o.Fetched?
    ensures n == Run(ThreadStep(Run(ThreadStep(Run(Machine(s, Transfer(s.count, block)), d.transfer, zone), x, zone),
                                    d.landed, zone), x, zone), d.appended, zone)
    ensures Inv(n, v) && n.pc == Appended(s.count, block) && n.s.flags.failed == s.flags.failed
    ensures n.s.files.pieces == s.files.pieces[s.count := x.o.piece] && v.name == s.count
    ensures n.s.count == if Early(d) || StartRequests in d.appended then 0 else s.count
    ensures v.early == Early(d)
    ensures v.behind == Unlinked(if Early(d) then s.(count := 0) else s, d.appended)
  {
    var m, w := Machine(s, Transfer(s.count, block)), Watch(s.count, false, false);
    OutsideEvents(m, w, d.transfer, zone);
    var m1, w1 := Run(m, d.transfer, zone), Watching(m, w, d.transfer, zone);
    LandKeepsInv(m1, w1, x, zone);
    var m2 := ThreadStep(m1, x, zone);
    OutsideEvents(m2, w1, d.landed, zone);
    var m3, w3 := Run(m2, d.landed, zone), Watching(m2, w1, d.landed, zone);
    AppendKeepsInv(m3, w3, x, zone);
    var m4 := ThreadStep(m3, x, zone);
    OutsideEvents(m4, w3, d.appended, zone);
    n, v := Run(m4, d.appended, zone), Watching(m4, w3, d.appended, zone);
  }

  // the check rejects short pieces and, if no request has cleared the count, pieces behind a gap
  lemma {:induction false} DecisionAtCheck(s: State, m: Machine, w: Watch, x: Input, zone: int, d: Places)
    requires Merged(s) && x.o.Fetched? && Inv(m, w) && m.pc.Appended? && PlausibleZone(zone)
    requires m.s.files.pieces == s.files.pieces[s.count := x.o.piece] && w.name == s.count
    requires m.s.count == if Early(d) || StartRequests in d.appended then 0 else s.count
    requires w.early == Early(d)
    ensures ThreadStep(m, x, zone).pc.Checked? <==>
            && |x.o.piece| >= RECORD
            && (Early(d) || StartRequests in d.appended || !Changed(Land(s, s.count, x.o), s.count, zone))
  {
    if m.s.count > 0 {
      var t := Land(s, s.count, x.o);
      assert t.files.pieces == m.s.files.pieces;
      ChangedMeansGap(t, zone);
      ChangedMeansGap(m.s, zone);
    }
  }

  // ----- what a harmful step does -----

  lemma {:induction false} RunFirst(m: Machine, e: Event, rest: seq<Event>, zone: int)
    ensures Run(m, [e] + rest, zone) == Run(Handle(m, e, zone), rest, zone)
  {
    assert ([e] + rest)[1..] == rest;
  }

  lemma {:induction false} RunConcat(m: Machine, a: seq<Event>, b: seq<Event>, zone: int)
    ensures Run(m, a + b, zone) == Run(Run(m, a, zone), b, zone)
    decreases |a|
  {
    if a == [] {
      assert a + b == b;
    } else {
      assert (a + b)[1..] == a[1..] + b;
      RunConcat(Handle(m, a[0], zone), a[1..], b, zone);
    }
  }

  // a request, and the first piece appended
  lemma {:induction false} FirstAppended(files: Files, x: Input, zone: int)
    requires x.o.Fetched?
    ensures var t := ThreadRuns(x);
      var m := Run(Machine(Init(files), Top), [StartRequests, t, t, t], zone);
      && m.pc == Appended(0, Fetching) && m.s.count == 0 && m.s.files.merged == Some(x.o.piece)
      && m.s.files.pieces == files.pieces[0 := x.o.piece] && m.s.flags == Flags(true, false, true)
  {
    var t := ThreadRuns(x);
    var m := Machine(Init(files), Top);
    assert [StartRequests, t, t, t] == [StartRequests] + ([t] + ([t] + ([t] + [])));
    RunFirst(m, StartRequests, [t] + ([t] + ([t] + [])), zone);
    var m1 := Handle(m, StartRequests, zone);
    RunFirst(m1, t, [t] + ([t] + []), zone);
    var m2 := Handle(m1, t, zone);
    RunFirst(m2, t, [t] + [], zone);
    RunFirst(Handle(m2, t, zone), t, [], zone);
  }

  /** A new device, at most three days wanted, a whole piece: if a second start asks for a download in front of the
      increment, the download is declared done without any file, and the request is lost. */
  lemma {:induction false} RequestLosesDownload(files: Files, x: Input, zone: int)
    requires x.o.Fetched? && |x.o.piece| >= RECORD && x.days <= 3
    ensures var t := ThreadRuns(x);
      var m := Run(Machine(Init(files), Top), [StartRequests, t, t, t] + ([t] + ([StartRequests] + [t])), zone);
      && m.pc == Returned(Fetching) && m.s.files.merged == None && m.s.count == 0
      && !m.s.flags.updated && !m.s.flags.failed
  {
    var t := ThreadRuns(x);
    FirstAppended(files, x, zone);
    RunConcat(Machine(Init(files), Top), [StartRequests, t, t, t], [t] + ([StartRequests] + [t]), zone);
    var m := Run(Machine(Init(files), Top), [StartRequests, t, t, t], zone);
    RunFirst(m, t, [StartRequests] + [t], zone);
    RunFirst(Handle(m, t, zone), StartRequests, [t], zone);
    RunFirst(Handle(Handle(m, t, zone), StartRequests, zone), t, [], zone);
  }

  /** ... and a late report of the daemon behind the first append leaves a counted piece without a file. */
  lemma {:induction false} ReportLosesPiece(files: Files, x: Input, zone: int)
    requires x.o.Fetched? && |x.o.piece| >= RECORD && x.days > 3
    ensures var t := ThreadRuns(x);
      var m := Run(Machine(Init(files), Top), [StartRequests, t, t, t] + ([UpdateDone] + ([t] + [t])), zone);
      m.pc == Returned(Fetching) && m.s.files.merged == None && m.s.count == 1 && !Merged(m.s)
  {
    var t := ThreadRuns(x);
    FirstAppended(files, x, zone);
    RunConcat(Machine(Init(files), Top), [StartRequests, t, t, t], [UpdateDone] + ([t] + [t]), zone);
    var m := Run(Machine(Init(files), Top), [StartRequests, t, t, t], zone);
    RunFirst(m, UpdateDone, [t] + [t], zone);
    RunFirst(Handle(m, UpdateDone, zone), t, [t], zone);
    RunFirst(Handle(Handle(m, UpdateDone, zone), t, zone), t, [], zone);
  }
}
