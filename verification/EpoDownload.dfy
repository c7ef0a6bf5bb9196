/** The download of orbit predictions (EPO): pieces fetched one by one, appended to one merged file, with a check
    against gaps between pieces, resumption after a failure, a bounded number of retries, and resets. The download
    thread runs in steps between which requests of the framework thread may fall. */
module EpoDownload {
  import opened Bytes
  import opened Options
  import GpsCalendar

  const RECORD := 72            // MTK_EPO_ONE_SV_SIZE
  const WORD := 0x1_0000_0000
  const DAY := 86400
  const MAX_PIECES := 10
  const MAX_RETRIES := 10
  const UNSET := 50             // initial file_retrying

  // ----- what a piece covers -----

  // the low 24 bits of the record's first word, in hours, as 32-bit seconds
  function GpsSeconds(data: seq<Byte>, at: nat): nat
    requires at + 3 <= |data|
  {
    (data[at] as int + 0x100 * data[at + 1] as int + 0x1_0000 * data[at + 2] as int) * 3600 % WORD
  }

  function StartSeconds(piece: seq<Byte>): nat
    requires |piece| >= RECORD
  {
    GpsSeconds(piece, 0)
  }

  function EndSeconds(piece: seq<Byte>): nat
    requires |piece| >= RECORD
  {
    (GpsSeconds(piece, |piece| - RECORD) + 21600) % WORD
  }

  // less than a day between the end of one piece and the start of the next
  predicate Follows(previous: seq<Byte>, next: seq<Byte>)
    requires |previous| >= RECORD && |next| >= RECORD
  {
    StartSeconds(next) - EndSeconds(previous) < DAY
  }

  // ----- state -----

  datatype Files = Files(merged: Option<seq<Byte>>, pieces: map<nat, seq<Byte>>)
  // epo_data_updated, epo_download_failed, epo_download_retry
  datatype Flags = Flags(updated: bool, failed: bool, retry: bool)
  // file_retrying, retry_time
  datatype Tries = Tries(piece: nat, times: nat)
  datatype State = State(files: Files, count: nat, flags: Flags, tries: Tries)

  function Init(files: Files): State {
    State(files, 0, Flags(false, false, true), Tries(UNSET, 0))
  }

  // one attempt at a piece: no URL to fetch from, a failed transfer, or a piece
  datatype Outcome = NoUrl | TransferFailed | Fetched(piece: seq<Byte>)

  // ----- one update, step by step -----

  // the end of the transfer of the piece whose file name was chosen
  function Land(s: State, name: nat, o: Outcome): State {
    match o
    case NoUrl => s.(flags := s.flags.(failed := true))
    case TransferFailed =>
      s.(files := s.files.(pieces := s.files.pieces - {name}), flags := s.flags.(failed := true))
    case Fetched(p) => s.(files := s.files.(pieces := s.files.pieces[name := p]))
  }

  // onto the end of the merged file, or in its place if no piece is counted
  function Append(s: State, name: nat): State {
    if name !in s.files.pieces then s
    else
      var p := s.files.pieces[name];
      var merged := if s.files.merged.None? || s.count == 0 then p else s.files.merged.value + p;
      s.(files := s.files.(merged := Some(merged)))
  }

  function StartTime(files: Files, i: nat, zone: int): int {
    if i in files.pieces && |files.pieces[i]| >= RECORD
    then GpsCalendar.TimeOfGps(StartSeconds(files.pieces[i]), zone) else 0
  }

  function EndTime(files: Files, i: nat, zone: int): int {
    if i in files.pieces && |files.pieces[i]| >= RECORD
    then GpsCalendar.TimeOfGps(EndSeconds(files.pieces[i]), zone) else 0
  }

  predicate Unreadable(files: Files, i: nat) {
    i in files.pieces && |files.pieces[i]| < RECORD
  }

  // the server moved on: the new piece starts a day or more after the last one ends
  predicate Changed(s: State, name: nat, zone: int) {
    s.count > 0 && StartTime(s.files, name, zone) - EndTime(s.files, s.count - 1, zone) >= DAY
  }

  predicate Unusable(s: State, name: nat) {
    Unreadable(s.files, name) || (s.count > 0 && Unreadable(s.files, s.count - 1))
  }

  // mtk_gps_epo_server_data_is_changed, which answers 1 in either case
  predicate Rejected(s: State, name: nat, zone: int) {
    Changed(s, name, zone) || Unusable(s, name)
  }

  // the piece files left after unlinking those with an index below n
  function From(pieces: map<nat, seq<Byte>>, n: nat): map<nat, seq<Byte>> {
    map i | i in pieces && i >= n :: pieces[i]
  }

  function Reset(s: State): State {
    s.(files := Files(None, From(s.files.pieces, s.count + 1)), count := 0)
  }

  function Check(s: State, name: nat, zone: int): State {
    var u := if Unusable(s, name) then s.(flags := s.flags.(failed := true)) else s;
    if Changed(s, name, zone) then Reset(u) else u
  }

  // ceil(days / 3)
  function PiecesFor(days: nat): nat {
    days / 3 + (if days % 3 > 0 then 1 else 0)
  }

  predicate MoreToFetch(count: nat, days: nat) {
    count < MAX_PIECES && count < PiecesFor(days)
  }

  // the number of pieces a day setting asks for: max(1, ceil(days / 3)), ten at most
  function Wanted(days: nat): nat {
    if days == 0 then 1 else if PiecesFor(days) < MAX_PIECES then PiecesFor(days) else MAX_PIECES
  }

  function Complete(s: State, days: nat): State {
    s.(files := s.files.(pieces := From(s.files.pieces, PiecesFor(days))), count := 0,
       flags := s.flags.(updated := false, failed := false))
  }

  function Advance(s: State, days: nat): State {
    if MoreToFetch(s.count + 1, days) then s.(count := s.count + 1) else Complete(s, days)
  }

  // mtk_gps_epo_file_update with nothing in between
  function FileUpdate(s: State, o: Outcome, days: nat, zone: int): State {
    var t := Land(s, s.count, o);
    if !o.Fetched? then t
    else
      var u := Append(t, s.count);
      if Rejected(u, s.count, zone) then Check(u, s.count, zone) else Advance(u, days)
  }

  // ----- the download thread -----

  // what the thread looks at: the transfer, the connection, the clock, the daemon's EPO.DAT and the settings
  datatype Network = Network(up: bool, active: bool, wifi: bool)
  datatype Outside = Outside(network: Network, clock: int, daemon: Option<seq<Byte>>, wifiDays: nat)
  datatype Input = Input(o: Outcome, outside: Outside, days: nat)

  // the start time of the data on disk; 0 if there is none to read
  function FirstTime(merged: Option<seq<Byte>>, daemon: Option<seq<Byte>>, zone: int): int {
    var file := if merged.Some? then merged else daemon;
    if file.Some? && |file.value| >= RECORD then GpsCalendar.TimeOfGps(StartSeconds(file.value), zone) else 0
  }

  // a day old: a failed download then starts again with the first piece
  predicate Stale(merged: Option<seq<Byte>>, x: Outside, zone: int) {
    x.clock >= FirstTime(merged, x.daemon, zone) + DAY
  }

  predicate WifiExpired(merged: Option<seq<Byte>>, x: Outside, zone: int) {
    x.clock >= FirstTime(merged, x.daemon, zone) + x.wifiDays * DAY
  }

  // gps_download_epo, with the merged file missing or unlinked
  function Request(s: State): State {
    s.(files := s.files.(merged := None), count := 0, flags := s.flags.(updated := true))
  }

  // the bookkeeping after a resume that left gps_epo_file_count where it was
  function CountRetry(s: State): State {
    var tries := if s.tries.piece == s.count then Tries(s.count, s.tries.times + 1) else Tries(s.count, 0);
    if tries.times < MAX_RETRIES then s.(tries := tries, flags := s.flags.(retry := false))
    else s.(tries := Tries(UNSET, 0), flags := s.flags.(failed := false))
  }

  // the first resume notes which piece is retried
  function Primed(s: State): State {
    if s.tries.piece == UNSET then s.(tries := s.tries.(piece := s.count)) else s
  }

  predicate ResumeDue(s: State, x: Outside) {
    x.network.active && x.network.up && s.flags.failed && s.flags.retry
  }

  // what a resume does about data a day old
  function StartAgain(s: State): State {
    s.(files := s.files.(merged := None), count := 0, flags := s.flags.(failed := false, updated := true))
  }

  function AfterResume(s: State, before: nat): State {
    if before == s.count then CountRetry(s) else s
  }

  function AfterFetch(s: State): State {
    if s.flags.failed then s.(flags := s.flags.(updated := false)) else s
  }

  function WifiBlock(s: State, x: Outside, zone: int): State {
    if !s.flags.updated && !s.flags.failed && x.network.up && x.network.wifi && WifiExpired(s.files.merged, x, zone)
    then Request(s) else s
  }

  datatype Block = Fetching | Resuming(before: nat)

  // where the thread is: at the top of its loop, inside an update, or in front of one of the later blocks
  datatype Pc =
    | Top
    | Transfer(name: nat, block: Block)
    | Landed(name: nat, block: Block)
    | Appended(name: nat, block: Block)
    | Checked(block: Block)
    | Returned(block: Block)
    | BeforeResume
    | BeforeWifi

  datatype Machine = Machine(s: State, pc: Pc)

  function ThreadStep(m: Machine, x: Input, zone: int): Machine {
    var s := m.s;
    match m.pc
    case Top =>
      if s.flags.updated then Machine(s.(flags := s.flags.(failed := false)), Transfer(s.count, Fetching))
      else Machine(s, BeforeResume)
    case Transfer(name, block) =>
      Machine(Land(s, name, x.o), if x.o.Fetched? then Landed(name, block) else Returned(block))
    case Landed(name, block) => Machine(Append(s, name), Appended(name, block))
    case Appended(name, block) =>
      if Rejected(s, name, zone) then Machine(Check(s, name, zone), Returned(block)) else Machine(s, Checked(block))
    case Checked(block) => Machine(Advance(s, x.days), Returned(block))
    case Returned(block) =>
      (match block
       case Fetching => Machine(AfterFetch(s), BeforeResume)
       case Resuming(before) => Machine(AfterResume(s, before), BeforeWifi))
    case BeforeResume =>
      if !ResumeDue(s, x.outside) then Machine(s, BeforeWifi)
      else if Stale(s.files.merged, x.outside, zone) then Machine(StartAgain(Primed(s)), Returned(Resuming(s.count)))
      else Machine(Primed(s), Transfer(s.count, Resuming(s.count)))
    case BeforeWifi => Machine(WifiBlock(s, x.outside, zone), Top)
  }

  datatype Event =
    | ThreadRuns(x: Input)
    | StartRequests   // mtk_gps_start finds no file, or unlinks an expired one
    | RetryAlarm      // retry_alarm_handler
    | UpdateDone      // HAL_CMD_UPDATE_EPO_FILE_DONE

  // the daemon has taken the file over: nothing is counted and nothing has failed
  predicate ReportUnlinks(s: State) {
    !s.flags.failed && s.count == 0
  }

  function Handle(m: Machine, e: Event, zone: int): Machine {
    match e
    case ThreadRuns(x) => ThreadStep(m, x, zone)
    case StartRequests => m.(s := Request(m.s))
    case RetryAlarm => m.(s := m.s.(flags := m.s.flags.(retry := true)))
    case UpdateDone =>
      if ReportUnlinks(m.s) then m.(s := m.s.(files := m.s.files.(merged := None))) else m
  }

  function Run(m: Machine, events: seq<Event>, zone: int): Machine
    decreases |events|
  {
    if events == [] then m else Run(Handle(m, events[0], zone), events[1..], zone)
  }

  // ----- the merge invariant -----

  function Concat(pieces: map<nat, seq<Byte>>, n: nat): seq<Byte>
    requires forall i :: 0 <= i < n ==> i in pieces
  {
    if n == 0 then [] else Concat(pieces, n - 1) + pieces[n - 1]
  }

  ghost predicate Sound(pieces: map<nat, seq<Byte>>, n: nat) {
    && (forall i :: 0 <= i < n ==> i in pieces && |pieces[i]| >= RECORD)
    && (forall i, j :: 0 <= i < n && j == i + 1 < n ==> Follows(pieces[i], pieces[j]))
  }

  ghost predicate Merged(s: State) {
    s.count > 0 ==> Sound(s.files.pieces, s.count) && s.files.merged == Some(Concat(s.files.pieces, s.count))
  }

  // a piece too short to hold one record, fetched behind accepted pieces
  predicate Spoils(s: State, o: Outcome) {
    o.Fetched? && s.count > 0 && 0 < |o.piece| < RECORD
  }

  predicate PlausibleZone(zone: int) {
    -DAY <= zone <= DAY
  }

  lemma {:induction false} ConcatIgnoresOthers(a: map<nat, seq<Byte>>, b: map<nat, seq<Byte>>, n: nat)
    requires forall i :: 0 <= i < n ==> i in a && i in b && a[i] == b[i]
    ensures Concat(a, n) == Concat(b, n)
  {
    if n == 0 {
    } else {
      ConcatIgnoresOthers(a, b, n - 1);
    }
  }

  // the clock comparison of the source is a comparison of GPS seconds
  lemma {:induction false} ChangedMeansGap(s: State, zone: int)
    requires s.count > 0 && Sound(s.files.pieces, s.count) && PlausibleZone(zone)
    requires s.count in s.files.pieces
    ensures var p := s.files.pieces[s.count];
      Changed(s, s.count, zone) <==> |p| >= RECORD && !Follows(s.files.pieces[s.count - 1], p)
  {
  }

  lemma {:induction false} SoundExtends(pieces: map<nat, seq<Byte>>, n: nat, p: seq<Byte>)
    requires Sound(pieces, n) && |p| >= RECORD && (n > 0 ==> Follows(pieces[n - 1], p))
    ensures Sound(pieces[n := p], n + 1) && Concat(pieces[n := p], n + 1) == Concat(pieces, n) + p
  {
    ConcatIgnoresOthers(pieces, pieces[n := p], n);
  }

  // the merged file holds the counted pieces and the one that has just been appended
  ghost predicate OneMore(s: State) {
    && s.count in s.files.pieces && Sound(s.files.pieces, s.count)
    && s.files.merged == Some(Concat(s.files.pieces, s.count) + s.files.pieces[s.count])
  }

  // an accepted piece is one more counted piece
  lemma {:induction false} AcceptedPieceExtends(s: State, zone: int)
    requires OneMore(s) && PlausibleZone(zone) && !Rejected(s, s.count, zone)
    ensures Sound(s.files.pieces, s.count + 1) && s.files.merged == Some(Concat(s.files.pieces, s.count + 1))
  {
    var p := s.files.pieces[s.count];
    if s.count == 0 {
    } else {
      ChangedMeansGap(s, zone);
    }
    SoundExtends(s.files.pieces, s.count, p);
    assert s.files.pieces[s.count := p] == s.files.pieces;
  }

  lemma {:induction false} AppendMakesOneMore(s: State, p: seq<Byte>)
    requires Merged(s)
    ensures OneMore(Append(Land(s, s.count, Fetched(p)), s.count))
  {
    var t := Land(s, s.count, Fetched(p));
    if s.count > 0 {
      ConcatIgnoresOthers(s.files.pieces, t.files.pieces, s.count);
    } else {
      var none: seq<Byte> := [];
      assert none + p == p;
    }
  }

  // a rejected piece leaves the counted ones merged if nothing of it was appended
  lemma {:induction false} RejectedPiece(s: State, zone: int)
    requires OneMore(s) && PlausibleZone(zone) && Rejected(s, s.count, zone)
    ensures Merged(Check(s, s.count, zone)) <==> !(s.count > 0 && 0 < |s.files.pieces[s.count]| < RECORD)
  {
    var p := s.files.pieces[s.count];
    if s.count == 0 {
    } else {
      ChangedMeansGap(s, zone);
      if p == [] {
        assert Concat(s.files.pieces, s.count) + p == Concat(s.files.pieces, s.count);
      } else {
        assert |s.files.merged.value| > |Concat(s.files.pieces, s.count)|;
      }
    }
  }

  lemma {:induction false} FailedUpdate(s: State, o: Outcome, days: nat, zone: int)
    requires Merged(s) && !o.Fetched?
    ensures Merged(Land(s, s.count, o))
  {
    if s.count == 0 {
    } else {
      ConcatIgnoresOthers(s.files.pieces, Land(s, s.count, o).files.pieces, s.count);
    }
  }

  /** One update keeps the merged file equal to the accepted pieces, unless a piece shorter than one record
      arrives behind accepted ones; then, and only then, the file holds bytes the count does not cover. */
  lemma {:induction false} UpdateKeepsMerged(s: State, o: Outcome, days: nat, zone: int)
    requires Merged(s) && PlausibleZone(zone)
    ensures Merged(FileUpdate(s, o, days, zone)) <==> !Spoils(s, o)
  {
    if !o.Fetched? {
      FailedUpdate(s, o, days, zone);
    } else {
      AppendMakesOneMore(s, o.piece);
      var u := Append(Land(s, s.count, o), s.count);
      if Rejected(u, s.count, zone) {
        RejectedPiece(u, zone);
      } else {
        AcceptedPieceExtends(u, zone);
      }
    }
  }
}
