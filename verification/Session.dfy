/** The start/stop protocol of the GPS HAL: a framework thread that calls start, stop and cleanup, and a
    HAL thread that handles one event at a time, sharing flags and latched conditions.
    Every atomic statement of either thread is one step; runs are arbitrary interleavings of such steps. */
module Session {

  datatype Status = EngineOn | SessionBegin | SessionEnd | EngineOff
  datatype Command = CmdStart | CmdStop | CmdQuit

  // The statement the framework thread executes next, grouped by call; Idle and Running lie between calls.
  // A start first connects (up to its wait on M_START) and then announces the session.
  datatype FrameworkPc =
    | Idle
    | Connecting(connect: ConnectPc)
    | Announcing(announce: AnnouncePc)
    | Running
    | Stopping(stop: StopPc)
    | Cleaning(clean: CleanPc)
    | Finished
  datatype ConnectPc = SpinWhileStarted | SendStart | WaitStart
  datatype AnnouncePc =
    WriteStart | ReportEngineOn | ReportSessionBegin | TakeWakeLock | TestStop | ClearStop | SetStartFlag
  datatype StopPc = SpinWhileStopped | SendStop | WriteStop
  datatype CleanPc = TestStartFlag | WaitStop | TestStale | ClearStale | WriteQuit | WaitQuit

  // The statement the HAL thread executes next. Poll is its wait for the next event.
  datatype HalPc = Poll | Nmea(nmea: NmeaPc) | Die(die: DiePc) | Quit | Exited
  datatype NmeaPc = ReleaseStart | SetUnlock
  datatype DiePc = ClearUnlock | ReportSessionEnd | ReportEngineOff | ReleaseStop | DropWakeLock | ClearStartFlag

  // start_flag, flag_unlock and the latched conditions M_START, M_STOP and M_CLEANUP
  datatype Flags = Flags(startFlag: bool, flagUnlock: bool, startCond: bool, stopCond: bool, cleanupCond: bool)

  // what the framework sees: status callbacks and wake lock calls
  datatype Log = Log(trace: seq<Status>, acquires: nat, releases: nat)

  datatype State = State(
    f: FrameworkPc, h: HalPc,
    flags: Flags,
    control: seq<Command>,  // the control pipe, oldest command first
    dies: nat,              // MNL_DIE messages the daemon has sent and the HAL thread has not yet read
    started: bool,
    log: Log)

  function Init(): State {
    State(Idle, Poll, Flags(false, false, false, false, false), [], 0, false, Log([], 0, 0))
  }

  datatype Step =
    | CallStart | CallStop | CallCleanup  // the framework enters a call
    | CallInit                            // mtk_gps_init after a cleanup
    | FrameworkRuns                       // next statement of the call in progress
    | HalNmea | HalDie | HalControl       // the HAL thread picks up an event
    | HalRuns                             // next statement of the event in progress

  predicate FrameworkCanRun(s: State) {
    match s.f
    case Connecting(pc) => if pc.SpinWhileStarted? then !s.flags.startFlag else pc.WaitStart? ==> s.flags.startCond
    case Announcing(_) => true
    case Stopping(pc) => pc.SpinWhileStopped? ==> s.flags.startFlag
    case Cleaning(pc) => if pc.WaitStop? then s.flags.stopCond else pc.WaitQuit? ==> s.flags.cleanupCond
    case _ => false
  }

  // start and stop alternate from one thread, cleanup comes when no session is open, and init behind a cleanup
  predicate Enabled(s: State, step: Step) {
    match step
    case CallStart => s.f.Idle?
    case CallCleanup => s.f.Idle?
    case CallInit => s.f.Finished?
    case CallStop => s.f.Running?
    case FrameworkRuns => FrameworkCanRun(s)
    case HalNmea => s.h.Poll?  // NMEA may arrive at any time, also long after the daemon died
    case HalDie => s.h.Poll? && s.dies > 0
    case HalControl => s.h.Poll? && s.control != []
    case HalRuns => !s.h.Poll? && !s.h.Exited?
  }

  function ConnectStep(s: State): State
    requires s.f.Connecting? && FrameworkCanRun(s)
  {
    match s.f.connect
    case SpinWhileStarted => s.(f := Connecting(SendStart))
    case SendStart => s.(f := Connecting(WaitStart))
    case WaitStart => s.(f := Announcing(WriteStart), flags := s.flags.(startCond := false))
  }

  function AnnounceStep(s: State): State
    requires s.f.Announcing?
  {
    match s.f.announce
    case WriteStart => s.(f := Announcing(ReportEngineOn), control := s.control + [CmdStart])
    case ReportEngineOn => s.(f := Announcing(ReportSessionBegin), log := s.log.(trace := s.log.trace + [EngineOn]))
    case ReportSessionBegin => s.(f := Announcing(TakeWakeLock), log := s.log.(trace := s.log.trace + [SessionBegin]))
    case TakeWakeLock => s.(f := Announcing(TestStop), log := s.log.(acquires := s.log.acquires + 1))
    case TestStop => s.(f := Announcing(if s.flags.stopCond then ClearStop else SetStartFlag))
    case ClearStop => s.(f := Announcing(SetStartFlag), flags := s.flags.(stopCond := false))
    case SetStartFlag => s.(f := Running, flags := s.flags.(startFlag := true))
  }

  function StopStep(s: State): State
    requires s.f.Stopping? && FrameworkCanRun(s)
  {
    match s.f.stop
    case SpinWhileStopped => s.(f := Stopping(SendStop))
    case SendStop => s.(f := Stopping(WriteStop), dies := s.dies + 1)
    case WriteStop => s.(f := Idle, control := s.control + [CmdStop])
  }

  function CleanStep(s: State): State
    requires s.f.Cleaning? && FrameworkCanRun(s)
  {
    match s.f.clean
    case TestStartFlag => s.(f := Cleaning(if s.flags.startFlag then WaitStop else TestStale))
    case WaitStop => s.(f := Cleaning(TestStale), flags := s.flags.(stopCond := false))
    case TestStale => s.(f := Cleaning(if s.flags.stopCond then ClearStale else WriteQuit))
    case ClearStale => s.(f := Cleaning(WriteQuit), flags := s.flags.(stopCond := false))
    case WriteQuit => s.(f := Cleaning(WaitQuit), control := s.control + [CmdQuit])
    case WaitQuit => s.(f := Finished, flags := s.flags.(cleanupCond := false))
  }

  function NmeaStep(s: State): State
    requires s.h.Nmea?
  {
    match s.h.nmea
    case ReleaseStart => s.(h := Nmea(SetUnlock), flags := s.flags.(startCond := true))
    case SetUnlock => s.(h := Poll, flags := s.flags.(flagUnlock := true))
  }

  function DieStep(s: State): State
    requires s.h.Die?
  {
    match s.h.die
    case ClearUnlock => s.(h := Die(ReportSessionEnd), flags := s.flags.(flagUnlock := false))
    case ReportSessionEnd => s.(h := Die(ReportEngineOff), log := s.log.(trace := s.log.trace + [SessionEnd]))
    case ReportEngineOff => s.(h := Die(ReleaseStop), log := s.log.(trace := s.log.trace + [EngineOff]))
    case ReleaseStop => s.(h := Die(DropWakeLock), flags := s.flags.(stopCond := true))
    case DropWakeLock => s.(h := Die(ClearStartFlag), log := s.log.(releases := s.log.releases + 1))
    case ClearStartFlag => s.(h := Poll, flags := s.flags.(startFlag := false))
  }

  function ControlStep(s: State): State
    requires s.h.Poll? && s.control != []
  {
    var t := s.(control := s.control[1..]);
    match s.control[0]
    case CmdStart => t.(started := true)
    case CmdStop => t.(started := false)
    case CmdQuit => t.(h := Quit)
  }

  function FrameworkStep(s: State): State
    requires FrameworkCanRun(s)
  {
    match s.f
    case Connecting(_) => ConnectStep(s)
    case Announcing(_) => AnnounceStep(s)
    case Stopping(_) => StopStep(s)
    case Cleaning(_) => CleanStep(s)
  }

  function HalStep(s: State): State
    requires !s.h.Poll? && !s.h.Exited?
  {
    match s.h
    case Nmea(_) => NmeaStep(s)
    case Die(_) => DieStep(s)
    case Quit => s.(h := Exited, flags := s.flags.(cleanupCond := true))
  }

  function Apply(s: State, step: Step): State
    requires Enabled(s, step)
  {
    match step
    case CallStart => s.(f := Connecting(SpinWhileStarted))
    case CallStop => s.(f := Stopping(SpinWhileStopped))
    case CallCleanup => s.(f := Cleaning(TestStartFlag))
    // a new HAL thread and a new pipe; flag_unlock and the latched conditions stay as they were
    case CallInit => s.(f := Idle, h := Poll, control := [])
    case FrameworkRuns => FrameworkStep(s)
    case HalNmea => if s.flags.flagUnlock then s else s.(h := Nmea(ReleaseStart))
    case HalDie => s.(h := Die(ClearUnlock), dies := s.dies - 1)
    case HalControl => ControlStep(s)
    case HalRuns => HalStep(s)
  }

  predicate Feasible(s: State, steps: seq<Step>)
    decreases |steps|
  {
    steps == [] || (Enabled(s, steps[0]) && Feasible(Apply(s, steps[0]), steps[1..]))
  }

  function After(s: State, steps: seq<Step>): State
    requires Feasible(s, steps)
    decreases |steps|
  {
    if steps == [] then s else After(Apply(s, steps[0]), steps[1..])
  }

  // ----- what the protocol promises -----

  function Cycle(i: nat): Status {
    var k := i % 4;
    if k == 0 then EngineOn else if k == 1 then SessionBegin else if k == 2 then SessionEnd else EngineOff
  }

  function Cycles(n: nat): seq<Status> {
    if n == 0 then [] else Cycles(n - 1) + [Cycle(n - 1)]
  }

  lemma {:induction false} CyclesAt(n: nat, i: nat)
    requires i < n
    ensures |Cycles(n)| == n && Cycles(n)[i] == Cycle(i)
  {
    if n == 1 {
    } else if i < n - 1 {
      CyclesAt(n - 1, i);
    } else {
      CyclesAt(n - 1, 0);
    }
  }

  predicate Cyclic(trace: seq<Status>) {
    trace == Cycles(|trace|)
  }

  predicate AtRest(s: State) {
    s.f.Idle? || s.f.Running? || s.f.Finished?
  }

  // ----- the inductive invariant -----

  // the daemon's death is announced and not yet fully handled
  predicate Dying(s: State) {
    s.dies > 0 || s.h.Die?
  }

  // ... and flag_unlock is not yet cleared
  predicate DeathUnread(s: State) {
    s.dies > 0 || (s.h.Die? && s.h.die.ClearUnlock?)
  }

  // the positions at which the session that the last stop ended may still be winding down
  predicate WindingDown(s: State) {
    || s.f.Idle? || s.f.Finished? || s.f.Cleaning?
    || (s.f.Stopping? && s.f.stop.WriteStop?)
    || (s.f.Connecting? && s.f.connect.SpinWhileStarted?)
  }

  // status callbacks since the last release of the wake lock
  function Reported(s: State): nat {
    if !WindingDown(s) then
      match s.f
      case Connecting(_) => 0
      case Announcing(pc) =>
        (match pc case WriteStart => 0 case ReportEngineOn => 0 case ReportSessionBegin => 1 case _ => 2)
      case _ => 2
    else if s.dies > 0 then 2
    else if s.h.Die? then
      match s.h.die
      case ClearUnlock => 2
      case ReportSessionEnd => 2
      case ReportEngineOff => 3
      case ReleaseStop => 4
      case DropWakeLock => 4
      case ClearStartFlag => 0
    else 0
  }

  predicate WakeLockHeld(s: State) {
    if WindingDown(s) then Dying(s) && !(s.h.Die? && s.h.die.ClearStartFlag?)
    else if s.f.Announcing? then s.f.announce.TestStop? || s.f.announce.ClearStop? || s.f.announce.SetStartFlag?
    else !s.f.Connecting?
  }

  predicate SessionOpen(s: State) {
    if WindingDown(s) then Dying(s) else s.f.Running? || s.f.Stopping?
  }

  predicate Accounts(s: State) {
    && |s.log.trace| == 4 * s.log.releases + Reported(s)
    && s.log.acquires == s.log.releases + (if WakeLockHeld(s) then 1 else 0)
    && (s.flags.startFlag <==> SessionOpen(s))
    && (if WindingDown(s) then s.dies <= 1 && (s.dies == 1 ==> !s.h.Die?) else !Dying(s))
    && (SessionOpen(s) && !WindingDown(s) ==> !s.flags.stopCond)
    && (s.f.Announcing? && s.f.announce.SetStartFlag? ==> !s.flags.stopCond)
  }

  predicate StopReleased(s: State) {
    s.h.Die? && (s.h.die.DropWakeLock? || s.h.die.ClearStartFlag?)
  }

  // M_STOP: cleanup waits for it only while it is latched or its release is still to come
  predicate StopLatched(s: State) {
    if s.f.Finished? || (s.f.Cleaning? && !s.f.clean.TestStartFlag? && !s.f.clean.WaitStop?) then
      s.dies == 0 && (s.h.Die? ==> StopReleased(s))
    else
      && (WindingDown(s) && Dying(s) ==> (s.flags.stopCond <==> StopReleased(s)))
      && (s.f.Cleaning? && s.f.clean.WaitStop? ==> s.flags.stopCond || Dying(s))
  }

  // start's wait on M_START: condition already latched, or the next NMEA batch will latch it
  predicate Armed(s: State) {
    s.flags.startCond || !s.flags.flagUnlock
  }

  predicate Wakeup(s: State) {
    && (s.h.Nmea? && s.h.nmea.ReleaseStart? ==> !s.flags.flagUnlock)
    && ((WindingDown(s) || s.f.Connecting?) && !DeathUnread(s) ==>
          Armed(s) && (s.h.Nmea? && s.h.nmea.SetUnlock? ==> s.flags.startCond))
  }

  predicate WaitingForQuit(s: State) {
    s.f.Cleaning? && s.f.clean.WaitQuit?
  }

  // CMD_QUIT is in the pipe only once cleanup waits for its answer, and is answered
  predicate QuitAnswered(s: State) {
    && (CmdQuit in s.control ==> WaitingForQuit(s) || s.f.Finished?)
    && (s.h.Quit? ==> WaitingForQuit(s))
    && (s.h.Exited? ==> s.f.Finished? || (WaitingForQuit(s) && s.flags.cleanupCond))
    && (s.f.Finished? ==> s.h.Exited? && !s.flags.cleanupCond)
    && (s.flags.cleanupCond ==> s.h.Exited?)
    && (WaitingForQuit(s) ==> s.h.Quit? || s.h.Exited? || CmdQuit in s.control)
    && (s.h.Quit? || s.h.Exited? ==> s.control == [])
    && (forall i :: 0 <= i < |s.control| - 1 ==> !s.control[i].CmdQuit?)
  }

  // the value `started` will have once the HAL thread has read its control pipe
  function Drained(started: bool, control: seq<Command>): bool
    decreases |control|
  {
    if control == [] then started
    else Drained(if control[0].CmdStart? then true else if control[0].CmdStop? then false else started, control[1..])
  }

  predicate WantsStarted(s: State) {
    || s.f.Running? || s.f.Stopping?
    || (s.f.Announcing? && !s.f.announce.WriteStart?)
  }

  predicate Ledger(s: State) {
    Cyclic(s.log.trace) && Accounts(s)
  }

  predicate Latches(s: State) {
    StopLatched(s) && Wakeup(s)
  }

  predicate Pipe(s: State) {
    QuitAnswered(s) && Drained(s.started, s.control) == WantsStarted(s)
  }

  predicate Inv(s: State) {
    Ledger(s) && Latches(s) && Pipe(s)
  }

  lemma {:induction false} DrainedAppend(started: bool, control: seq<Command>, c: Command)
    ensures Drained(started, control + [c]) ==
            if c.CmdStart? then true else if c.CmdStop? then false else Drained(started, control)
    decreases |control|
  {
    if control == [] {
    } else {
      var next := if control[0].CmdStart? then true else if control[0].CmdStop? then false else started;
      assert (control + [c])[1..] == control[1..] + [c];
      DrainedAppend(next, control[1..], c);
    }
  }

  lemma {:induction false} ConnectKeepsInv(s: State)
    requires Inv(s) && s.f.Connecting? && FrameworkCanRun(s)
    ensures Inv(ConnectStep(s))
  {
  }

  // the next status of the cycle
  lemma {:induction false} CyclicExtends(trace: seq<Status>, n: nat, k: nat)
    requires Cyclic(trace) && |trace| == 4 * n + k && k < 4
    ensures Cyclic(trace + [if k == 0 then EngineOn else if k == 1 then SessionBegin else if k == 2 then SessionEnd
                            else EngineOff])
  {
    assert (trace + [EngineOn])[..|trace|] == trace;
    assert |trace| % 4 == k;
  }

  lemma {:induction false} AnnounceKeepsAccounts(s: State)
    requires Accounts(s) && s.f.Announcing?
    ensures Accounts(AnnounceStep(s))
  {
  }

  lemma {:induction false} AnnounceKeepsLedger(s: State)
    requires Ledger(s) && s.f.Announcing?
    ensures Ledger(AnnounceStep(s))
  {
    AnnounceKeepsAccounts(s);
    if Reported(s) < 4 {
      CyclicExtends(s.log.trace, s.log.releases, Reported(s));
    }
  }

  lemma {:induction false} AnnounceKeepsLatches(s: State)
    requires Accounts(s) && Latches(s) && s.f.Announcing?
    ensures Latches(AnnounceStep(s))
  {
  }

  lemma {:induction false} AnnounceKeepsPipe(s: State)
    requires Pipe(s) && s.f.Announcing?
    ensures Pipe(AnnounceStep(s))
  {
    if s.f.announce.WriteStart? { DrainedAppend(s.started, s.control, CmdStart); }
  }

  lemma {:induction false} StopKeepsInv(s: State)
    requires Inv(s) && s.f.Stopping? && FrameworkCanRun(s)
    ensures Inv(StopStep(s))
  {
    if s.f.stop.WriteStop? { DrainedAppend(s.started, s.control, CmdStop); }
  }

  lemma {:induction false} CleanKeepsLedger(s: State)
    requires Ledger(s) && s.f.Cleaning? && FrameworkCanRun(s)
    ensures Ledger(CleanStep(s))
  {
    assert CleanStep(s).log == s.log && WindingDown(CleanStep(s)) && WindingDown(s);
  }

  lemma {:induction false} CleanKeepsLatches(s: State)
    requires Accounts(s) && Latches(s) && s.f.Cleaning? && FrameworkCanRun(s)
    ensures Latches(CleanStep(s))
  {
  }

  lemma {:induction false} CleanKeepsPipe(s: State)
    requires Pipe(s) && s.f.Cleaning? && FrameworkCanRun(s)
    ensures Pipe(CleanStep(s))
  {
    if s.f.clean.WriteQuit? { DrainedAppend(s.started, s.control, CmdQuit); }
  }

  lemma {:induction false} NmeaKeepsInv(s: State)
    requires Inv(s) && s.h.Nmea?
    ensures Inv(NmeaStep(s))
  {
  }

  lemma {:induction false} DieKeepsAccounts(s: State)
    requires Accounts(s) && s.h.Die?
    ensures Accounts(DieStep(s))
  {
  }

  lemma {:induction false} DieKeepsLedger(s: State)
    requires Ledger(s) && s.h.Die?
    ensures Ledger(DieStep(s))
  {
    DieKeepsAccounts(s);
    if Reported(s) < 4 {
      CyclicExtends(s.log.trace, s.log.releases, Reported(s));
    }
  }

  lemma {:induction false} DieKeepsLatches(s: State)
    requires Accounts(s) && Latches(s) && s.h.Die?
    ensures Latches(DieStep(s))
  {
  }

  lemma {:induction false} DieKeepsPipe(s: State)
    requires Pipe(s) && s.h.Die?
    ensures Pipe(DieStep(s))
  {
  }

  lemma {:induction false} PickUpKeepsLedger(s: State, step: Step)
    requires Ledger(s) && Enabled(s, step)
    requires !step.FrameworkRuns? && !step.HalRuns? && !step.CallInit?
    ensures Ledger(Apply(s, step))
  {
  }

  lemma {:induction false} PickUpKeepsLatches(s: State, step: Step)
    requires Accounts(s) && Latches(s) && Enabled(s, step)
    requires !step.FrameworkRuns? && !step.HalRuns? && !step.CallInit?
    ensures Latches(Apply(s, step))
  {
  }

  lemma {:induction false} PickUpKeepsPipe(s: State, step: Step)
    requires Pipe(s) && Enabled(s, step)
    requires !step.FrameworkRuns? && !step.HalRuns? && !step.CallInit?
    ensures Pipe(Apply(s, step))
  {
  }

  lemma {:induction false} InitKeepsInv(s: State)
    requires Inv(s) && s.f.Finished?
    ensures Inv(Apply(s, CallInit))
  {
    assert s.control == [];
  }

  lemma {:induction false} StepKeepsInv(s: State, step: Step)
    requires Inv(s) && Enabled(s, step)
    ensures Inv(Apply(s, step))
  {
    if step.FrameworkRuns? {
      match s.f
      case Connecting(_) => ConnectKeepsInv(s);
      case Announcing(_) =>
        AnnounceKeepsLedger(s);
        AnnounceKeepsLatches(s);
        AnnounceKeepsPipe(s);
      case Stopping(_) => StopKeepsInv(s);
      case Cleaning(_) =>
        CleanKeepsLedger(s);
        CleanKeepsLatches(s);
        CleanKeepsPipe(s);
    } else if step.HalRuns? {
      match s.h
      case Nmea(_) => NmeaKeepsInv(s);
      case Die(_) =>
        DieKeepsLedger(s);
        DieKeepsLatches(s);
        DieKeepsPipe(s);
      case Quit =>
    } else if step.CallInit? {
      InitKeepsInv(s);
    } else {
      PickUpKeepsLedger(s, step);
      PickUpKeepsLatches(s, step);
      PickUpKeepsPipe(s, step);
    }
  }

  lemma {:induction false} RunKeepsInv(s: State, steps: seq<Step>)
    requires Inv(s) && Feasible(s, steps)
    ensures Inv(After(s, steps))
    decreases |steps|
  {
    if steps == [] {
    } else {
      StepKeepsInv(s, steps[0]);
      RunKeepsInv(Apply(s, steps[0]), steps[1..]);
    }
  }

  // ----- main results -----

  /** In every interleaving the status callbacks are a prefix of (on, begin, end, off) repeated, and the
      wake lock is held at most once and never released more often than acquired. */
  lemma {:induction false} StatusesAlternate(steps: seq<Step>)
    requires Feasible(Init(), steps)
    ensures var s := After(Init(), steps);
      && (forall i :: 0 <= i < |s.log.trace| ==> s.log.trace[i] == Cycle(i))
      && (s.log.acquires == s.log.releases || s.log.acquires == s.log.releases + 1)
  {
    RunKeepsInv(Init(), steps);
    var s := After(Init(), steps);
    forall i | 0 <= i < |s.log.trace| ensures s.log.trace[i] == Cycle(i) {
      CyclesAt(|s.log.trace|, i);
    }
  }

  /** No lost wakeup: whenever start waits on M_START, the condition is latched or flag_unlock is clear. */
  lemma {:induction false} NoLostWakeup(steps: seq<Step>)
    requires Feasible(Init(), steps)
    requires After(Init(), steps).f == Connecting(WaitStart)
    ensures After(Init(), steps).flags.startCond || !After(Init(), steps).flags.flagUnlock
  {
    RunKeepsInv(Init(), steps);
  }

  /** ... so the next NMEA batch releases it, however late after the previous session it arrives. */
  lemma {:induction false} NmeaReleasesStart(steps: seq<Step>)
    requires Feasible(Init(), steps)
    requires After(Init(), steps).f == Connecting(WaitStart) && After(Init(), steps).h.Poll?
    ensures var s := After(Init(), steps);
      || FrameworkCanRun(s)
      || (Apply(s, HalNmea).h.Nmea? && FrameworkCanRun(NmeaStep(Apply(s, HalNmea))))
  {
    RunKeepsInv(Init(), steps);
  }

  // ----- every session announced has an NMEA batch of its own -----

  function Count(trace: seq<Status>, x: Status): nat {
    if trace == [] then 0 else Count(trace[..|trace| - 1], x) + (if trace[|trace| - 1] == x then 1 else 0)
  }

  predicate LatchesStart(s: State, step: Step) {
    step.HalRuns? && s.h == Nmea(ReleaseStart)
  }

  // the executed statements that latch M_START
  function Latched(s: State, steps: seq<Step>): nat
    requires Feasible(s, steps)
    decreases |steps|
  {
    if steps == [] then 0 else (if LatchesStart(s, steps[0]) then 1 else 0) + Latched(Apply(s, steps[0]), steps[1..])
  }

  // sessions announced, a session that has passed the wait and is about to be, and a latch still unused
  function Claimed(s: State): nat {
    Count(s.log.trace, EngineOn) + (if s.flags.startCond then 1 else 0)
    + (if s.f == Announcing(WriteStart) || s.f == Announcing(ReportEngineOn) then 1 else 0)
  }

  lemma {:induction false} CountAppend(trace: seq<Status>, last: Status, x: Status)
    ensures Count(trace + [last], x) == Count(trace, x) + if last == x then 1 else 0
  {
    assert (trace + [last])[..|trace|] == trace;
  }

  lemma {:induction false} AnnounceClaims(s: State)
    requires s.f.Announcing?
    ensures Claimed(AnnounceStep(s)) <= Claimed(s)
  {
    if s.f.announce.ReportEngineOn? {
      CountAppend(s.log.trace, EngineOn, EngineOn);
    } else if s.f.announce.ReportSessionBegin? {
      CountAppend(s.log.trace, SessionBegin, EngineOn);
    } else {
      assert AnnounceStep(s).log.trace == s.log.trace;
    }
  }

  lemma {:induction false} FrameworkClaims(s: State)
    requires FrameworkCanRun(s)
    ensures Claimed(FrameworkStep(s)) <= Claimed(s)
  {
    match s.f
    case Connecting(_) =>
    case Announcing(_) => AnnounceClaims(s);
    case Stopping(_) =>
    case Cleaning(_) =>
  }

  // a statement that at most reports a status other than ENGINE_ON
  lemma {:induction false} QuietClaims(s: State, t: State, x: Status)
    requires x != EngineOn && (t.log.trace == s.log.trace || t.log.trace == s.log.trace + [x])
    requires t.f == s.f && t.flags.startCond == s.flags.startCond
    ensures Claimed(t) == Claimed(s)
  {
    CountAppend(s.log.trace, x, EngineOn);
  }

  lemma {:induction false} DieClaims(s: State)
    requires s.h.Die?
    ensures Claimed(DieStep(s)) == Claimed(s)
  {
    QuietClaims(s, DieStep(s), if s.h.die.ReportSessionEnd? then SessionEnd else EngineOff);
  }

  lemma {:induction false} HalClaims(s: State)
    requires !s.h.Poll? && !s.h.Exited?
    ensures Claimed(HalStep(s)) <= Claimed(s) + if s.h == Nmea(ReleaseStart) then 1 else 0
  {
    if s.h.Die? {
      DieClaims(s);
    } else {
      assert HalStep(s).log == s.log && HalStep(s).f == s.f;
    }
  }

  lemma {:induction false} StepClaims(s: State, step: Step)
    requires Enabled(s, step)
    ensures Claimed(Apply(s, step)) <= Claimed(s) + if LatchesStart(s, step) then 1 else 0
  {
    if step.FrameworkRuns? {
      FrameworkClaims(s);
    } else if step.HalRuns? {
      HalClaims(s);
    }
  }

  lemma {:induction false} RunClaims(s: State, steps: seq<Step>)
    requires Feasible(s, steps)
    ensures Claimed(After(s, steps)) <= Claimed(s) + Latched(s, steps)
    decreases |steps|
  {
    if steps == [] {
    } else {
      StepClaims(s, steps[0]);
      RunClaims(Apply(s, steps[0]), steps[1..]);
    }
  }

  lemma {:induction false} FirstCounts(trace: seq<Status>, x: Status)
    requires trace != [] && trace[0] == x
    ensures Count(trace, x) >= 1
  {
    if |trace| == 1 {
    } else {
      FirstCounts(trace[..|trace| - 1], x);
    }
  }

  /** Start does wait: in every run no more sessions are announced than NMEA batches have latched M_START, each latch
      serving one session, and before the first of them no status is reported at all. */
  lemma {:induction false} EverySessionHasItsNmea(steps: seq<Step>)
    requires Feasible(Init(), steps)
    ensures Count(After(Init(), steps).log.trace, EngineOn) <= Latched(Init(), steps)
    ensures Latched(Init(), steps) == 0 ==> After(Init(), steps).log.trace == []
  {
    RunClaims(Init(), steps);
    StatusesAlternate(steps);
    var trace := After(Init(), steps).log.trace;
    if trace != [] {
      FirstCounts(trace, EngineOn);
    }
  }

  /** When cleanup returns the books are closed: whole cycles only,
      no wake lock held, no death message left, and the HAL thread gone. */
  lemma {:induction false} CleanupClosesBooks(steps: seq<Step>)
    requires Feasible(Init(), steps)
    requires After(Init(), steps).f.Finished?
    ensures var s := After(Init(), steps);
      && |s.log.trace| == 4 * s.log.releases && s.log.acquires == s.log.releases && !s.flags.startFlag
      && s.h.Exited? && s.dies == 0
  {
    RunKeepsInv(Init(), steps);
  }

  /** The session the framework believes in is the session the HAL thread will believe in. */
  lemma {:induction false} StartedFollowsCalls(steps: seq<Step>)
    requires Feasible(Init(), steps)
    requires After(Init(), steps).f.Running? || After(Init(), steps).f.Idle?
    requires After(Init(), steps).control == []
    ensures After(Init(), steps).started <==> After(Init(), steps).f.Running?
  {
    RunKeepsInv(Init(), steps);
  }

  // ----- every call returns -----

  function FrameworkRank(f: FrameworkPc): nat {
    match f
    case Connecting(pc) => (match pc case SpinWhileStarted => 10 case SendStart => 9 case WaitStart => 8)
    case Announcing(pc) =>
      (match pc case WriteStart => 7 case ReportEngineOn => 6 case ReportSessionBegin => 5 case TakeWakeLock => 4
                case TestStop => 3 case ClearStop => 2 case SetStartFlag => 1)
    case Stopping(pc) => (match pc case SpinWhileStopped => 3 case SendStop => 2 case WriteStop => 1)
    case Cleaning(pc) =>
      (match pc case TestStartFlag => 6 case WaitStop => 5 case TestStale => 4 case ClearStale => 3
                case WriteQuit => 2 case WaitQuit => 1)
    case _ => 0
  }

  // what the HAL thread has left to do, the first NMEA batch of a session included
  function HalRank(s: State): nat {
    match s.h
    case Poll => if s.flags.flagUnlock then 0 else 3
    case Nmea(pc) => if pc.ReleaseStart? then 2 else 1
    case Die(pc) =>
      (match pc case ClearUnlock => 9 case ReportSessionEnd => 8 case ReportEngineOff => 7
                case ReleaseStop => 6 case DropWakeLock => 5 case ClearStartFlag => 4)
    case Quit => 1
    case Exited => 0
  }

  // statements that can still be executed before the framework enters another call
  function Work(s: State): nat {
    12 * FrameworkRank(s.f) + 10 * s.dies + 2 * |s.control| + HalRank(s)
  }

  predicate EntersCall(step: Step) {
    step.CallStart? || step.CallStop? || step.CallCleanup? || step.CallInit?
  }

  lemma {:induction false} FrameworkRankDrops(s: State)
    requires FrameworkCanRun(s)
    ensures FrameworkRank(FrameworkStep(s).f) < FrameworkRank(s.f)
  {
  }

  lemma {:induction false} FrameworkAddsLittle(s: State)
    requires FrameworkCanRun(s)
    ensures var t := FrameworkStep(s);
      HalRank(t) == HalRank(s) && 10 * t.dies + 2 * |t.control| <= 10 * s.dies + 2 * |s.control| + 10
  {
    match s.f
    case Connecting(_) =>
    case Announcing(_) =>
    case Stopping(_) =>
    case Cleaning(_) =>
  }

  /** Every statement of either thread lowers the work left, except for NMEA read after the first batch, which
      changes nothing. */
  lemma {:induction false} EveryStepCounts(s: State, step: Step)
    requires Inv(s) && Enabled(s, step) && !EntersCall(step)
    ensures Apply(s, step) == s || Work(Apply(s, step)) < Work(s)
  {
    if step.FrameworkRuns? {
      FrameworkRankDrops(s);
      FrameworkAddsLittle(s);
    }
  }

  // a step that brings the call in progress nearer to its return
  function Helpful(s: State): Step {
    if FrameworkCanRun(s) then FrameworkRuns
    else if !s.h.Poll? then HalRuns
    else if s.f == Connecting(WaitStart) then HalNmea
    else if s.dies > 0 then HalDie
    else HalControl
  }

  /** While a call is in progress some thread can execute a statement that counts: there is no deadlock. */
  lemma {:induction false} HelpfulStepHelps(s: State)
    requires Inv(s) && !AtRest(s)
    ensures Enabled(s, Helpful(s)) && !EntersCall(Helpful(s)) && Apply(s, Helpful(s)) != s
  {
    if FrameworkCanRun(s) {
      FrameworkRankDrops(s);
    }
  }

  // no step enters a call, and every step changes something
  predicate Busy(s: State, steps: seq<Step>)
    requires Feasible(s, steps)
    decreases |steps|
  {
    steps == []
    || (!EntersCall(steps[0]) && Apply(s, steps[0]) != s && Busy(Apply(s, steps[0]), steps[1..]))
  }

  // nothing but reading more NMEA can happen
  ghost predicate Quiet(s: State) {
    forall step :: Enabled(s, step) && !EntersCall(step) ==> Apply(s, step) == s
  }

  lemma {:induction false} BusyRunsEnd(s: State, steps: seq<Step>)
    requires Inv(s) && Feasible(s, steps) && Busy(s, steps)
    ensures Work(After(s, steps)) + |steps| <= Work(s)
    decreases |steps|
  {
    if steps == [] {
    } else {
      EveryStepCounts(s, steps[0]);
      StepKeepsInv(s, steps[0]);
      BusyRunsEnd(Apply(s, steps[0]), steps[1..]);
    }
  }

  lemma {:induction false} QuietIsAtRest(s: State)
    requires Inv(s)
    ensures Quiet(s) ==> AtRest(s)
  {
    if !AtRest(s) {
      HelpfulStepHelps(s);
    }
  }

  /** Whatever the schedule, the call in progress returns: no schedule executes more statements than the work left,
      and one that can execute no more has returned. It only takes a HAL thread and a daemon that do not stop. */
  lemma {:induction false} EveryScheduleReturns(before: seq<Step>, steps: seq<Step>)
    requires Feasible(Init(), before) && Feasible(After(Init(), before), steps) && Busy(After(Init(), before), steps)
    ensures var s := After(Init(), before);
      |steps| <= Work(s) && (Quiet(After(s, steps)) ==> AtRest(After(s, steps)))
  {
    var s := After(Init(), before);
    RunKeepsInv(Init(), before);
    BusyRunsEnd(s, steps);
    RunKeepsInv(s, steps);
    QuietIsAtRest(After(s, steps));
  }

  /** Whatever has happened so far, the call in progress has a continuation in which it returns. */
  lemma {:induction false} CallCanReturn(s: State) returns (steps: seq<Step>)
    requires Inv(s)
    ensures Feasible(s, steps) && AtRest(After(s, steps))
    ensures Inv(After(s, steps))
    decreases Work(s)
  {
    if AtRest(s) {
      steps := [];
    } else {
      HelpfulStepHelps(s);
      EveryStepCounts(s, Helpful(s));
      StepKeepsInv(s, Helpful(s));
      var rest := CallCanReturn(Apply(s, Helpful(s)));
      steps := [Helpful(s)] + rest;
      assert steps[1..] == rest;
    }
  }

  lemma {:induction false} AfterConcat(s: State, a: seq<Step>, b: seq<Step>)
    requires Feasible(s, a) && Feasible(After(s, a), b)
    ensures Feasible(s, a + b) && After(s, a + b) == After(After(s, a), b)
    decreases |a|
  {
    if a == [] {
      assert a + b == b;
    } else {
      assert (a + b)[0] == a[0] && (a + b)[1..] == a[1..] + b;
      AfterConcat(Apply(s, a[0]), a[1..], b);
    }
  }

  /** No reachable state is a deadlock: every run extends to one in which the call in progress has returned. */
  lemma {:induction false} EveryRunCanReturn(steps: seq<Step>) returns (more: seq<Step>)
    requires Feasible(Init(), steps)
    ensures Feasible(Init(), steps + more) && AtRest(After(Init(), steps + more))
  {
    RunKeepsInv(Init(), steps);
    more := CallCanReturn(After(Init(), steps));
    AfterConcat(Init(), steps, more);
  }

  // ----- the same protocol over the HAL's global variables -----

  /** The globals both threads update in place. Each method runs one atomic statement of one thread. */
  class Globals {
    var f: FrameworkPc
    var h: HalPc
    var startFlag: bool
    var flagUnlock: bool
    var startCond: bool
    var stopCond: bool
    var cleanupCond: bool
    var control: seq<Command>
    var dies: nat
    var started: bool
    var trace: seq<Status>
    var acquires: nat
    var releases: nat

    ghost function View(): State
      reads this
    {
      State(f, h, Flags(startFlag, flagUnlock, startCond, stopCond, cleanupCond), control, dies, started,
            Log(trace, acquires, releases))
    }

    constructor ()
      ensures View() == Init()
    {
      f, h := Idle, Poll;
      startFlag, flagUnlock, startCond, stopCond, cleanupCond := false, false, false, false, false;
      control, dies, started := [], 0, false;
      trace, acquires, releases := [], 0, 0;
    }

    method MtkGpsStartConnect()
      requires f.Connecting? && FrameworkCanRun(View())
      modifies this
      ensures View() == FrameworkStep(old(View()))
    {
      match f.connect {
        case SpinWhileStarted => f := Connecting(SendStart);
        case SendStart => f := Connecting(WaitStart);
        case WaitStart =>
          startCond := false;
          f := Announcing(WriteStart);
      }
    }

    method MtkGpsStartAnnounce()
      requires f.Announcing?
      modifies this
      ensures View() == FrameworkStep(old(View()))
    {
      match f.announce {
        case WriteStart =>
          control := control + [CmdStart];
          f := Announcing(ReportEngineOn);
        case ReportEngineOn =>
          trace := trace + [EngineOn];
          f := Announcing(ReportSessionBegin);
        case ReportSessionBegin =>
          trace := trace + [SessionBegin];
          f := Announcing(TakeWakeLock);
        case TakeWakeLock =>
          acquires := acquires + 1;
          f := Announcing(TestStop);
        case TestStop =>
          if stopCond { f := Announcing(ClearStop); } else { f := Announcing(SetStartFlag); }
        case ClearStop =>
          stopCond := false;
          f := Announcing(SetStartFlag);
        case SetStartFlag =>
          startFlag := true;
          f := Running;
      }
    }

    method MtkGpsStop()
      requires f.Stopping? && FrameworkCanRun(View())
      modifies this
      ensures View() == FrameworkStep(old(View()))
    {
      match f.stop {
        case SpinWhileStopped => f := Stopping(SendStop);
        case SendStop =>
          dies := dies + 1;
          f := Stopping(WriteStop);
        case WriteStop =>
          control := control + [CmdStop];
          f := Idle;
      }
    }

    method MtkGpsCleanup()
      requires f.Cleaning? && FrameworkCanRun(View())
      modifies this
      ensures View() == FrameworkStep(old(View()))
    {
      match f.clean {
        case TestStartFlag => if startFlag { f := Cleaning(WaitStop); } else { f := Cleaning(TestStale); }
        case WaitStop =>
          stopCond := false;
          f := Cleaning(TestStale);
        case TestStale => if stopCond { f := Cleaning(ClearStale); } else { f := Cleaning(WriteQuit); }
        case ClearStale =>
          stopCond := false;
          f := Cleaning(WriteQuit);
        case WriteQuit =>
          control := control + [CmdQuit];
          f := Cleaning(WaitQuit);
        case WaitQuit =>
          cleanupCond := false;
          f := Finished;
      }
    }

    // mtk_gps_init: a new HAL thread and a new pipe
    method MtkGpsInit()
      requires f.Finished?
      modifies this
      ensures View() == Apply(old(View()), CallInit)
    {
      control := [];
      h := Poll;
      f := Idle;
    }

    method PickUp(event: Step)
      requires (event.HalNmea? || event.HalDie? || event.HalControl?) && Enabled(View(), event)
      modifies this
      ensures View() == Apply(old(View()), event)
    {
      match event {
        case HalNmea => if !flagUnlock { h := Nmea(ReleaseStart); }
        case HalDie =>
          dies := dies - 1;
          h := Die(ClearUnlock);
        case HalControl =>
          var cmd := control[0];
          control := control[1..];
          match cmd {
            case CmdStart => if !started { started := true; }
            case CmdStop => if started { started := false; }
            case CmdQuit => h := Quit;
          }
      }
    }

    method HandleEvent()
      requires !h.Poll? && !h.Exited?
      modifies this
      ensures View() == HalStep(old(View()))
    {
      match h {
        case Nmea(ReleaseStart) =>
          startCond := true;
          h := Nmea(SetUnlock);
        case Nmea(SetUnlock) =>
          flagUnlock := true;
          h := Poll;
        case Die(ClearUnlock) =>
          flagUnlock := false;
          h := Die(ReportSessionEnd);
        case Die(ReportSessionEnd) =>
          trace := trace + [SessionEnd];
          h := Die(ReportEngineOff);
        case Die(ReportEngineOff) =>
          trace := trace + [EngineOff];
          h := Die(ReleaseStop);
        case Die(ReleaseStop) =>
          stopCond := true;
          h := Die(DropWakeLock);
        case Die(DropWakeLock) =>
          releases := releases + 1;
          h := Die(ClearStartFlag);
        case Die(ClearStartFlag) =>
          startFlag := false;
          h := Poll;
        case Quit =>
          cleanupCond := true;
          h := Exited;
      }
    }
  }
}
