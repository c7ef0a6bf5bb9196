/** Enrolment of fingerprints over five template slots. The framework's ma_enroll call writes token, slot and grade
    one after the other, a press of the finger runs through enroll statement by statement, and nothing keeps the
    two apart; runs are arbitrary interleavings of their statements. */
module Fingerprint {

  const MAXF := 5
  const FP_NEWF_FAIL := -4
  const FP_PARA_ERROR := -12
  const DONE := 100

  // how much of the sensor is covered
  datatype Cover = Pressed | Part | Full

  // the statement of ma_enroll that comes next; the token is written when the call begins
  datatype CallPc = NoCall | WriteFid | ClearGrade

  // Where the finger thread is inside enroll. The owner is the session whose slot fp_enroll was called with.
  datatype PressPc =
    | Idle
    | Matched                                // all five slots were compared without a match
    | Scanning(slot: int, owner: int)        // fp_enroll is running
    | Scanned(g: int, owner: int)            // it has returned g
    | Graded(g: int, owner: int)             // smaf.grade is written
    | Updated(owner: int)                    // the template is in the database, the token is not

  // slots fp_enroll completed, slots updated in the database, and tokens saved, by slot and token number
  datatype Work = Work(templates: seq<int>, stored: seq<int>, tokens: seq<(int, nat)>)

  // What happened under one ma_enroll call. A token is known by the number of the call that brought it; a later
  // call that finds the database closed only replaces it.
  datatype Session = Session(
    start: set<int>,   // slots enrolled when its own slot was chosen
    hat: nat,
    work: Work,
    last: int,         // smaf.grade when the next session began
    disturbed: bool)

  // the finger thread's calls into the library
  datatype Call = FpMatch(id: int, ok: bool) | FpEnroll(fid: int)

  datatype Smaf = Smaf(fid: int, grade: int, hat: nat)
  datatype Device = Device(enrolled: set<int>, overwritten: nat, calls: seq<Call>)
  datatype State = State(smaf: Smaf, call: CallPc, press: PressPc, device: Device, sessions: seq<Session>)

  function Init(enrolled: set<int>): State {
    State(Smaf(0, 0, 0), NoCall, Idle, Device(enrolled, 0, []), [])
  }

  // the smallest empty slot from fid on
  function NewFid(enrolled: set<int>, fid: int): (r: int)
    requires 1 <= fid <= MAXF + 1
    ensures r == FP_NEWF_FAIL || fid <= r <= MAXF
    ensures r == FP_NEWF_FAIL ==> forall k :: fid <= k <= MAXF ==> k in enrolled
    ensures r != FP_NEWF_FAIL ==> r !in enrolled && forall k :: fid <= k < r ==> k in enrolled
    decreases MAXF + 1 - fid
  {
    if fid > MAXF then FP_NEWF_FAIL else if fid !in enrolled then fid else NewFid(enrolled, fid + 1)
  }

  function FirstFree(enrolled: set<int>): (r: int)
    ensures r == FP_NEWF_FAIL || (1 <= r <= MAXF && r !in enrolled)
  {
    NewFid(enrolled, 1)
  }

  // ----- steps -----

  datatype Step =
    | EnterEnroll(open: bool) | CallRuns     // ma_enroll
    | MaRemove(fid: int)
    | Press(cover: Cover, matches: seq<bool>) | ScanBegins | ScanEnds(g: int) | PressRuns

  // Framework calls come one at a time. fp_enroll refuses slots outside 1..5 and is otherwise free to return
  // anything.
  predicate Enabled(s: State, step: Step) {
    match step
    case EnterEnroll(_) => s.call.NoCall?
    case CallRuns => !s.call.NoCall?
    case MaRemove(_) => s.call.NoCall?
    case Press(_, matches) => s.press.Idle? && |matches| == MAXF
    case ScanBegins => s.press.Matched?
    case ScanEnds(g) => s.press.Scanning? && (1 <= s.press.slot <= MAXF || g == FP_PARA_ERROR)
    case PressRuns => s.press.Scanned? || s.press.Graded? || s.press.Updated?
  }

  function Latest(s: State): int {
    |s.sessions| - 1
  }

  // the session whose slot smaf.fid holds
  function SlotOwner(s: State): int {
    if s.call.WriteFid? then Latest(s) - 1 else Latest(s)
  }

  function WithWork(sessions: seq<Session>, i: int, work: Work): seq<Session> {
    if 0 <= i < |sessions| then sessions[i := sessions[i].(work := work)] else sessions
  }

  function WorkOf(sessions: seq<Session>, i: int): Work {
    if 0 <= i < |sessions| then sessions[i].work else Work([], [], [])
  }

  function OnEnter(s: State, open: bool): State {
    var hat, i := s.smaf.hat + 1, Latest(s);
    if open then
      s.(smaf := s.smaf.(hat := hat), call := WriteFid,
         sessions := (if i < 0 then [] else s.sessions[i := s.sessions[i].(last := s.smaf.grade)])
                     + [Session({}, hat, Work([], [], []), 0, false)])
    else
      s.(smaf := s.smaf.(hat := hat),
         sessions := if i < 0 || s.sessions[i].work.tokens != [] then s.sessions
                     else s.sessions[i := s.sessions[i].(hat := hat)])
  }

  function OnCall(s: State): State {
    var i := Latest(s);
    if s.call.WriteFid? then
      s.(smaf := s.smaf.(fid := FirstFree(s.device.enrolled)), call := ClearGrade,
         sessions := if i < 0 then [] else s.sessions[i := s.sessions[i].(start := s.device.enrolled)])
    else
      s.(smaf := s.smaf.(grade := 0), call := NoCall)
  }

  function OnRemove(s: State, fid: int): State {
    s.(device := s.device.(enrolled := if fid == 0 then s.device.enrolled - {1, 2, 3, 4, 5}
                                       else if fid > 0 then s.device.enrolled - {fid} else s.device.enrolled))
  }

  // the comparisons up to the first match
  function Compared(matches: seq<bool>): seq<Call> {
    if matches == [] then []
    else
      var front := matches[..|matches| - 1];
      Compared(front) + (if true in front then [] else [FpMatch(|matches|, matches[|matches| - 1])])
  }

  function OnPress(s: State, cover: Cover, matches: seq<bool>): State {
    if cover.Pressed? || s.smaf.grade == DONE || cover.Part? then s
    else s.(press := if true in matches then Idle else Matched,
            device := s.device.(calls := s.device.calls + Compared(matches)))
  }

  function OnScanBegin(s: State): State {
    s.(press := Scanning(s.smaf.fid, SlotOwner(s)),
       device := s.device.(calls := s.device.calls + [FpEnroll(s.smaf.fid)]))
  }

  function OnScanEnd(s: State, g: int): State
    requires s.press.Scanning?
  {
    var slot, i := s.press.slot, s.press.owner;
    if g != DONE then s.(press := Scanned(g, i))
    else
      var work := WorkOf(s.sessions, i);
      s.(press := Scanned(g, i),
         device := s.device.(enrolled := s.device.enrolled + {slot},
                             overwritten := s.device.overwritten + (if slot in s.device.enrolled then 1 else 0)),
         sessions := WithWork(s.sessions, i, work.(templates := work.templates + [slot])))
  }

  function OnGrade(s: State): State
    requires s.press.Scanned?
  {
    s.(smaf := s.smaf.(grade := s.press.g), press := Graded(s.press.g, s.press.owner))
  }

  function OnUpdate(s: State): State
    requires s.press.Graded?
  {
    var i := s.press.owner;
    if s.smaf.grade != DONE then s.(press := Idle)
    else
      var work := WorkOf(s.sessions, i);
      s.(press := Updated(i),
         sessions := WithWork(s.sessions, i, work.(stored := work.stored + [s.smaf.fid])))
  }

  function OnSave(s: State): State
    requires s.press.Updated?
  {
    var i := s.press.owner;
    var work := WorkOf(s.sessions, i);
    s.(press := Idle,
       sessions := WithWork(s.sessions, i, work.(tokens := work.tokens + [(s.smaf.fid, s.smaf.hat)])))
  }

  function Effect(s: State, step: Step): State
    requires Enabled(s, step)
  {
    match step
    case EnterEnroll(open) => OnEnter(s, open)
    case CallRuns => OnCall(s)
    case MaRemove(fid) => OnRemove(s, fid)
    case Press(cover, matches) => OnPress(s, cover, matches)
    case ScanBegins => OnScanBegin(s)
    case ScanEnds(g) => OnScanEnd(s, g)
    case PressRuns => if s.press.Scanned? then OnGrade(s) else if s.press.Graded? then OnUpdate(s) else OnSave(s)
  }

  // ----- how a call and a press get into each other's way -----

  // a completed scan whose token is not yet saved
  predicate Committing(press: PressPc) {
    match press
    case Scanned(g, _) => g == DONE
    case Graded(g, _) => g == DONE
    case Updated(_) => true
    case _ => false
  }

  // The session a step disturbs, or -1. Only scans that complete matter:
  // - ma_enroll begins before the token of a completed scan is saved;
  // - a scan completes although ma_enroll has begun since the one whose slot it was called with;
  // - its grade is written before that ma_enroll clears the grade, which undoes it;
  // - the grade of an older session's scan is written when the running session has already cleared it.
  function Disturbs(s: State, step: Step): int {
    match step
    case EnterEnroll(open) => if open && Committing(s.press) then OwnerOf(s.press) else -1
    case ScanEnds(g) => if g == DONE && OwnerOf(s.press) != Latest(s) then OwnerOf(s.press) else -1
    case PressRuns =>
      if s.press.Scanned? && s.press.g == DONE
         && (if s.press.owner == Latest(s) then s.call.ClearGrade? else s.call.NoCall?)
      then Latest(s) else -1
    case _ => -1
  }

  function OwnerOf(press: PressPc): int {
    if press.Scanning? || press.Scanned? || press.Graded? || press.Updated? then press.owner else -1
  }

  function Mark(s: State, i: int): State {
    if 0 <= i < |s.sessions| then s.(sessions := s.sessions[i := s.sessions[i].(disturbed := true)]) else s
  }

  function Apply(s: State, step: Step): State
    requires Enabled(s, step)
  {
    Mark(Effect(s, step), Disturbs(s, step))
  }

  predicate Feasible(s: State, run: seq<Step>)
    decreases |run|
  {
    run == [] || (Enabled(s, run[0]) && Feasible(Apply(s, run[0]), run[1..]))
  }

  function After(s: State, run: seq<Step>): State
    requires Feasible(s, run)
    decreases |run|
  {
    if run == [] then s else After(Apply(s, run[0]), run[1..])
  }

  // ----- what a session may have done -----

  predicate Nothing(x: Session) {
    x.work == Work([], [], [])
  }

  // one template and one token in the smallest slot that was empty when it was chosen
  predicate Committed(x: Session) {
    var fid := FirstFree(x.start);
    fid != FP_NEWF_FAIL && x.work == Work([fid], [fid], [(fid, x.hat)])
  }

  // committed exactly if the grade became, and stayed, 100
  predicate Finished(x: Session) {
    if x.last == DONE then Committed(x) else Nothing(x)
  }

  // not finished, whatever an older token's owner still adds
  predicate Spoiled(x: Session) {
    && !Finished(x)
    && (|x.work.tokens| != 1 || x.work.tokens[0].1 != x.hat || x.last != DONE || |x.work.templates| > 1)
  }

  // ----- the invariant -----

  // 100 is written by a completed scan only, and no press goes on under it
  predicate GradeOk(s: State) {
    && (s.press.Matched? || s.press.Scanning? || s.press.Scanned? ==> s.smaf.grade != DONE)
    && (s.press.Graded? && s.press.g != DONE ==> s.smaf.grade != DONE)
  }

  predicate OwnerOk(s: State) {
    var o := OwnerOf(s.press);
    && -1 <= o <= Latest(s)
    && (SlotOwner(s) < 0 ==> s.smaf.fid == 0)
    && (s.press.Scanning? && o < 0 ==> s.press.slot == 0)
    && (Committing(s.press) ==> o >= 0)
    && (s.sessions == [] ==> s.call.NoCall? && s.smaf.grade != DONE)
  }

  predicate PastOk(s: State, x: Session, i: int) {
    && x.hat < s.smaf.hat
    && (if x.disturbed then Spoiled(x)
        else Finished(x) && (OwnerOf(s.press) == i ==> !Committing(s.press)))
  }

  predicate PastAllOk(s: State) {
    forall i :: 0 <= i < |s.sessions| - 1 ==> PastOk(s, s.sessions[i], i)
  }

  predicate CurrentUndisturbed(s: State, x: Session) {
    if OwnerOf(s.press) == Latest(s) && Committing(s.press) then
      && FirstFree(x.start) != FP_NEWF_FAIL
      && x.work == Work([s.smaf.fid], if s.press.Updated? then [s.smaf.fid] else [], [])
      && (!s.press.Scanned? ==> s.call.NoCall? && s.smaf.grade == DONE)
    else if s.call.NoCall? && s.smaf.grade == DONE then Committed(x)
    else Nothing(x)
  }

  predicate CurrentDisturbed(s: State, x: Session) {
    if Nothing(x) then s.call.NoCall? && s.smaf.grade == DONE && OwnerOf(s.press) != Latest(s)
    else if s.call.ClearGrade? then
      x.work.templates != [] && s.smaf.grade == DONE && (s.press.Idle? || s.press.Graded? || s.press.Updated?)
    else
      && x.work.templates != []
      && (|x.work.templates| > 1
          || (s.smaf.grade != DONE && !(s.press.Scanned? && s.press.g == DONE)))
  }

  predicate CurrentOk(s: State) {
    s.sessions != [] ==>
      var x := s.sessions[Latest(s)];
      && x.hat <= s.smaf.hat && (x.work.tokens == [] ==> x.hat == s.smaf.hat)
      && (if s.call.WriteFid? then Nothing(x) && !x.disturbed && OwnerOf(s.press) < Latest(s)
          else s.smaf.fid == FirstFree(x.start))
      && (OwnerOf(s.press) == Latest(s) && s.press.Scanning? ==> s.press.slot == s.smaf.fid)
      && (x.work.templates != [] ==> OwnerOf(s.press) < 0 || OwnerOf(s.press) == Latest(s))
      && (if x.disturbed then CurrentDisturbed(s, x) else CurrentUndisturbed(s, x))
  }

  predicate Inv(s: State) {
    GradeOk(s) && OwnerOk(s) && PastAllOk(s) && CurrentOk(s)
  }

  lemma {:induction false} EnterKeepsInv(s: State, open: bool)
    requires Inv(s) && s.call.NoCall?
    ensures Inv(Apply(s, EnterEnroll(open)))
  {
  }

  lemma {:induction false} CallKeepsInv(s: State)
    requires Inv(s) && !s.call.NoCall?
    ensures Inv(Apply(s, CallRuns))
  {
  }

  lemma {:induction false} ScanBeginKeepsInv(s: State)
    requires Inv(s) && s.press.Matched?
    ensures Inv(Apply(s, ScanBegins))
  {
  }

  lemma {:induction false} ScanEndKeepsInv(s: State, g: int)
    requires Inv(s) && Enabled(s, ScanEnds(g))
    ensures Inv(Apply(s, ScanEnds(g)))
  {
  }

  lemma {:induction false} GradeKeepsInv(s: State)
    requires Inv(s) && s.press.Scanned?
    ensures Inv(Apply(s, PressRuns))
  {
  }

  lemma {:induction false} UpdateKeepsInv(s: State)
    requires Inv(s) && s.press.Graded?
    ensures Inv(Apply(s, PressRuns))
  {
  }

  lemma {:induction false} SaveKeepsInv(s: State)
    requires Inv(s) && s.press.Updated?
    ensures Inv(Apply(s, PressRuns))
  {
    var none: seq<(int, nat)> := [];
    assert none + [(s.smaf.fid, s.smaf.hat)] == [(s.smaf.fid, s.smaf.hat)];
  }

  lemma {:induction false} StepKeepsInv(s: State, step: Step)
    requires Inv(s) && Enabled(s, step)
    ensures Inv(Apply(s, step))
  {
    match step {
      case EnterEnroll(open) => EnterKeepsInv(s, open);
      case CallRuns => CallKeepsInv(s);
      case ScanBegins => ScanBeginKeepsInv(s);
      case ScanEnds(g) => ScanEndKeepsInv(s, g);
      case PressRuns =>
        if s.press.Scanned? {
          GradeKeepsInv(s);
        } else if s.press.Graded? {
          UpdateKeepsInv(s);
        } else {
          SaveKeepsInv(s);
        }
      case _ =>
    }
  }

  lemma {:induction false} RunKeepsInv(s: State, run: seq<Step>)
    requires Inv(s) && Feasible(s, run)
    ensures Inv(After(s, run))
    decreases |run|
  {
    if run == [] {
    } else {
      StepKeepsInv(s, run[0]);
      RunKeepsInv(Apply(s, run[0]), run[1..]);
    }
  }

  // ----- the results -----

  /** In every interleaving, a session that is over has committed one template and one token to the slot chosen for
      it, with its own token, exactly if its grade ended at 100, and otherwise nothing, if and only if no step
      disturbed it; and so has the running session whenever call and press are at rest. */
  lemma {:induction false} FinishedUnlessDisturbed(enrolled: set<int>, run: seq<Step>)
    requires Feasible(Init(enrolled), run)
    ensures var s := After(Init(enrolled), run);
      && (forall i :: 0 <= i < |s.sessions| - 1 ==> (Finished(s.sessions[i]) <==> !s.sessions[i].disturbed))
      && (s.sessions != [] && s.call.NoCall? && s.press.Idle? ==>
            var x := s.sessions[Latest(s)].(last := s.smaf.grade);
            Finished(x) <==> !x.disturbed)
  {
    RunKeepsInv(Init(enrolled), run);
  }

  predicate NoneDisturbed(s: State) {
    forall i :: 0 <= i < |s.sessions| ==> !s.sessions[i].disturbed
  }

  // nothing is enrolled behind the back of a session that has committed nothing
  predicate Protected(s: State) {
    NoneDisturbed(s) ==>
      && s.device.overwritten == 0
      && (s.sessions != [] && !s.call.WriteFid? && s.sessions[Latest(s)].work.templates == [] ==>
            s.device.enrolled <= s.sessions[Latest(s)].start)
  }

  lemma {:induction false} StepKeepsProtected(s: State, step: Step)
    requires Inv(s) && Protected(s) && Enabled(s, step)
    ensures Protected(Apply(s, step))
  {
    var r := Apply(s, step);
    if NoneDisturbed(r) {
      StillNoneDisturbed(s, step);
      if step.ScanEnds? && step.g == DONE {
        CompletedScanIsOwn(s, step.g);
      }
    }
  }

  lemma {:induction false} StillNoneDisturbed(s: State, step: Step)
    requires Enabled(s, step) && NoneDisturbed(Apply(s, step))
    ensures NoneDisturbed(s)
  {
    var r := Apply(s, step);
    forall i | 0 <= i < |s.sessions| ensures !s.sessions[i].disturbed {
      assert !r.sessions[i].disturbed;
    }
  }

  // an undisturbed completed scan fills the empty slot of the running session
  lemma {:induction false} CompletedScanIsOwn(s: State, g: int)
    requires Inv(s) && Protected(s) && Enabled(s, ScanEnds(g)) && g == DONE
    requires NoneDisturbed(Apply(s, ScanEnds(g))) && NoneDisturbed(s)
    ensures s.press.owner == Latest(s) && !s.call.WriteFid? && s.press.slot !in s.device.enrolled
    ensures s.sessions != [] && Apply(s, ScanEnds(g)).sessions[Latest(s)].work.templates != []
    ensures Apply(s, ScanEnds(g)).device.overwritten == s.device.overwritten
  {
    var o := s.press.owner;
    var after := Apply(s, ScanEnds(g)).sessions;
    assert 0 <= o < |after| ==> !after[o].disturbed;
    assert Nothing(s.sessions[o]);
  }

  lemma {:induction false} RunKeepsProtected(s: State, run: seq<Step>)
    requires Inv(s) && Protected(s) && Feasible(s, run)
    ensures Protected(After(s, run))
    decreases |run|
  {
    if run == [] {
    } else {
      StepKeepsInv(s, run[0]);
      StepKeepsProtected(s, run[0]);
      RunKeepsProtected(Apply(s, run[0]), run[1..]);
    }
  }

  /** In every run that disturbs no session, each session commits at most once, to the smallest slot empty when it was
      chosen, exactly if its grade becomes 100, and no scan ever completes into an enrolled slot. */
  lemma {:induction false} SessionsCommitOnce(enrolled: set<int>, run: seq<Step>)
    requires Feasible(Init(enrolled), run) && NoneDisturbed(After(Init(enrolled), run))
    ensures var s := After(Init(enrolled), run);
      && s.device.overwritten == 0
      && (forall i :: 0 <= i < |s.sessions| - 1 ==> Finished(s.sessions[i]))
      && (s.sessions != [] && s.call.NoCall? && s.press.Idle? ==>
            Finished(s.sessions[Latest(s)].(last := s.smaf.grade)))
  {
    FinishedUnlessDisturbed(enrolled, run);
    RunKeepsProtected(Init(enrolled), run);
  }

  // ----- two runs that disturb a session -----

  lemma {:induction false} AfterConcat(s: State, a: seq<Step>, b: seq<Step>)
    requires Feasible(s, a) && Feasible(After(s, a), b)
    ensures Feasible(s, a + b) && After(s, a + b) == After(After(s, a), b)
    decreases |a|
  {
    if a == [] {
      assert a + b == b;
    } else {
      assert (a + b)[1..] == a[1..] + b;
      AfterConcat(Apply(s, a[0]), a[1..], b);
    }
  }

  lemma {:induction false} OneStep(s: State, step: Step, rest: seq<Step>)
    requires Enabled(s, step) && Feasible(Apply(s, step), rest)
    ensures Feasible(s, [step] + rest) && After(s, [step] + rest) == After(Apply(s, step), rest)
  {
    assert ([step] + rest)[1..] == rest;
  }

  lemma {:induction false} ThreeSteps(s: State, a: Step, b: Step, c: Step)
    requires Enabled(s, a) && Enabled(Apply(s, a), b) && Enabled(Apply(Apply(s, a), b), c)
    ensures Feasible(s, [a, b, c]) && After(s, [a, b, c]) == Apply(Apply(Apply(s, a), b), c)
  {
    var s1 := Apply(s, a);
    OneStep(Apply(s1, b), c, []);
    OneStep(s1, b, [c]);
    OneStep(s, a, [b, c]);
    assert [a] + [b, c] == [a, b, c] && [b] + [c] == [b, c] && [c] + [] == [c];
  }

  // a whole call, a press up to the end of its scan, and the rest of a press, with nothing in between
  lemma {:induction false} AfterCall(s: State) returns (run: seq<Step>)
    requires s.call.NoCall?
    ensures Feasible(s, run)
    ensures var t := After(s, run);
      && t.smaf == Smaf(FirstFree(s.device.enrolled), 0, s.smaf.hat + 1)
      && t.call == s.call && t.press == s.press && t.device == s.device
      && |t.sessions| == |s.sessions| + 1 && Nothing(t.sessions[|s.sessions|])
      && (forall i :: 0 <= i < |s.sessions| ==> t.sessions[i].work == s.sessions[i].work)
  {
    run := [EnterEnroll(true), CallRuns, CallRuns];
    ThreeSteps(s, EnterEnroll(true), CallRuns, CallRuns);
  }

  lemma {:induction false} AfterScan(s: State) returns (run: seq<Step>)
    requires s.press.Idle? && s.smaf.grade != DONE && 1 <= s.smaf.fid <= MAXF
    ensures Feasible(s, run)
    ensures var t := After(s, run);
      && t.press == Scanned(DONE, SlotOwner(s)) && t.smaf == s.smaf && t.call == s.call
      && t.device.enrolled == s.device.enrolled + {s.smaf.fid}
      && t.device.overwritten == s.device.overwritten + (if s.smaf.fid in s.device.enrolled then 1 else 0)
      && |t.sessions| == |s.sessions|
      && (0 <= SlotOwner(s) < |s.sessions| ==>
            var work := s.sessions[SlotOwner(s)].work;
            t.sessions[SlotOwner(s)].work == work.(templates := work.templates + [s.smaf.fid]))
  {
    var matches := [false, false, false, false, false];
    run := [Press(Full, matches), ScanBegins, ScanEnds(DONE)];
    var s1 := Apply(s, Press(Full, matches));
    assert s1.press == Matched;
    ThreeSteps(s, Press(Full, matches), ScanBegins, ScanEnds(DONE));
  }

  lemma {:induction false} AfterCommit(s: State) returns (run: seq<Step>)
    requires s.press.Scanned? && s.press.g == DONE
    ensures Feasible(s, run)
    ensures var t := After(s, run);
      t.press == Idle && t.smaf == s.smaf.(grade := DONE) && t.call == s.call && t.device == s.device
      && |t.sessions| == |s.sessions|
      && (0 <= s.press.owner < |s.sessions| ==>
            var work := s.sessions[s.press.owner].work;
            t.sessions[s.press.owner].work ==
              Work(work.templates, work.stored + [s.smaf.fid], work.tokens + [(s.smaf.fid, s.smaf.hat)]))
  {
    run := [PressRuns, PressRuns, PressRuns];
    ThreeSteps(s, PressRuns, PressRuns, PressRuns);
  }

  lemma {:induction false} FreeSlots()
    ensures FirstFree({}) == 1 && FirstFree({1}) == 2
  {
    assert NewFid({1}, 2) == 2;
  }

  // a session, and a press up to the end of its scan
  lemma {:induction false} FirstScan() returns (run: seq<Step>)
    ensures Feasible(Init({}), run)
    ensures var s := After(Init({}), run);
      && s.smaf == Smaf(1, 0, 1) && s.call == NoCall && s.press == Scanned(DONE, 0)
      && s.device.enrolled == {1} && |s.sessions| == 1 && s.sessions[0].work == Work([1], [], [])
  {
    var s0 := Init({});
    FreeSlots();
    var call := AfterCall(s0);
    var scan := AfterScan(After(s0, call));
    AfterConcat(s0, call, scan);
    run := call + scan;
  }

  /** A second call between a scan and the saving of its token: slot 1 has a template and no token, slot 2 a token
      and no template. */
  lemma {:induction false} IntrusionMisplacesToken() returns (run: seq<Step>)
    ensures Feasible(Init({}), run)
    ensures var s := After(Init({}), run);
      s.device.enrolled == {1} && |s.sessions| == 2 && s.sessions[0].work == Work([1], [2], [(2, 2)])
  {
    FreeSlots();
    var scan := FirstScan();
    var s1 := After(Init({}), scan);
    var intrusion := AfterCall(s1);
    var commit := AfterCommit(After(s1, intrusion));
    AfterConcat(s1, intrusion, commit);
    AfterConcat(Init({}), scan, intrusion + commit);
    run := scan + (intrusion + commit);
  }

  // one press that commits between the call's choice of the slot and its clearing of the grade
  lemma {:induction false} EarlyCommit() returns (run: seq<Step>)
    ensures Feasible(Init({}), run)
    ensures var s := After(Init({}), run);
      && s.smaf == Smaf(1, DONE, 1) && s.call == ClearGrade && s.press == Idle
      && s.device.enrolled == {1} && s.device.overwritten == 0
      && |s.sessions| == 1 && s.sessions[0].work == Work([1], [1], [(1, 1)])
  {
    var s0 := Init({});
    FreeSlots();
    var begun := Apply(s0, EnterEnroll(true));
    var call := [EnterEnroll(true)] + ([CallRuns] + []);
    OneStep(begun, CallRuns, []);
    OneStep(s0, EnterEnroll(true), [CallRuns] + []);
    var s1 := After(s0, call);
    var scan := AfterScan(s1);
    var commit := AfterCommit(After(s1, scan));
    AfterConcat(s1, scan, commit);
    AfterConcat(s0, call, scan + commit);
    run := call + (scan + commit);
  }

  /** A single call, its grade cleared only after a whole press: the slot is open again, and the next finger's
      template overwrites the first one's. */
  lemma {:induction false} LateClearingOverwrites() returns (run: seq<Step>)
    ensures Feasible(Init({}), run)
    ensures var s := After(Init({}), run);
      s.device.overwritten == 1 && |s.sessions| == 1 && s.sessions[0].work == Work([1, 1], [1], [(1, 1)])
  {
    var press := EarlyCommit();
    var s1 := After(Init({}), press);
    var s2 := Apply(s1, CallRuns);
    var clear := [CallRuns] + [];
    OneStep(s1, CallRuns, []);
    var again := AfterScan(s2);
    AfterConcat(s1, clear, again);
    AfterConcat(Init({}), press, clear + again);
    run := press + (clear + again);
  }

  // ----- every scan follows five failed comparisons -----

  predicate ScansFollowMatches(calls: seq<Call>) {
    forall i :: 0 <= i < |calls| && calls[i].FpEnroll? ==>
      i >= MAXF && forall k :: 1 <= k <= MAXF ==> calls[i - MAXF + k - 1] == FpMatch(k, false)
  }

  predicate ReadyToScan(s: State) {
    s.press.Matched? ==>
      |s.device.calls| >= MAXF
      && forall k :: 1 <= k <= MAXF ==> s.device.calls[|s.device.calls| - MAXF + k - 1] == FpMatch(k, false)
  }

  lemma {:induction false} ComparedWithoutMatch(matches: seq<bool>)
    ensures |Compared(matches)| <= |matches|
    ensures forall i :: 0 <= i < |Compared(matches)| ==> Compared(matches)[i].FpMatch?
    ensures true !in matches ==>
      |Compared(matches)| == |matches|
      && forall k :: 1 <= k <= |matches| ==> Compared(matches)[k - 1] == FpMatch(k, false)
  {
    if matches == [] {
    } else {
      ComparedWithoutMatch(matches[..|matches| - 1]);
      if true !in matches {
        assert matches[|matches| - 1] in matches;
      }
    }
  }

  lemma {:induction false} PressAddsMatches(calls: seq<Call>, more: seq<Call>)
    requires ScansFollowMatches(calls) && forall i :: 0 <= i < |more| ==> more[i].FpMatch?
    ensures ScansFollowMatches(calls + more)
  {
    var all := calls + more;
    forall i | 0 <= i < |all| && all[i].FpEnroll?
      ensures i >= MAXF && forall k :: 1 <= k <= MAXF ==> all[i - MAXF + k - 1] == FpMatch(k, false)
    {
      assert i < |calls| && calls[i].FpEnroll?;
    }
  }

  lemma {:induction false} ScanKeepsOrder(s: State)
    requires ScansFollowMatches(s.device.calls) && ReadyToScan(s) && s.press.Matched?
    ensures ScansFollowMatches(OnScanBegin(s).device.calls)
  {
    var before, all := s.device.calls, OnScanBegin(s).device.calls;
    assert all == before + [FpEnroll(s.smaf.fid)];
  }

  lemma {:induction false} PressKeepsOrder(s: State, cover: Cover, matches: seq<bool>)
    requires ScansFollowMatches(s.device.calls) && s.press.Idle? && |matches| == MAXF
    ensures var r := OnPress(s, cover, matches); ScansFollowMatches(r.device.calls) && ReadyToScan(r)
  {
    ComparedWithoutMatch(matches);
    PressAddsMatches(s.device.calls, Compared(matches));
  }

  lemma {:induction false} StepKeepsOrder(s: State, step: Step)
    requires ScansFollowMatches(s.device.calls) && ReadyToScan(s) && Enabled(s, step)
    ensures var r := Apply(s, step); ScansFollowMatches(r.device.calls) && ReadyToScan(r)
  {
    match step {
      case Press(cover, matches) => PressKeepsOrder(s, cover, matches);
      case ScanBegins => ScanKeepsOrder(s);
      case _ => assert Apply(s, step).device.calls == s.device.calls;
    }
  }

  /** In every run, whatever calls the framework makes in between, each fp_enroll call comes directly behind failed
      comparisons with all five slots. */
  lemma {:induction false} ScansFollowFailedMatches(s: State, run: seq<Step>)
    requires ScansFollowMatches(s.device.calls) && ReadyToScan(s) && Feasible(s, run)
    ensures ScansFollowMatches(After(s, run).device.calls)
    decreases |run|
  {
    if run == [] {
    } else {
      StepKeepsOrder(s, run[0]);
      ScansFollowFailedMatches(Apply(s, run[0]), run[1..]);
    }
  }

  // a press under an unfinished session that covers the whole sensor is compared; no other one calls the library
  lemma {:induction false} WhichPressesCompare(s: State, cover: Cover, matches: seq<bool>)
    requires s.press.Idle? && |matches| == MAXF
    ensures var r := OnPress(s, cover, matches);
      && (r.device.calls != s.device.calls <==> cover.Full? && s.smaf.grade != 100)
      && (r.press.Matched? <==> cover.Full? && s.smaf.grade != 100 && true !in matches)
  {
    ComparedStarts(matches);
  }

  lemma {:induction false} ComparedStarts(matches: seq<bool>)
    requires matches != []
    ensures Compared(matches) != []
  {
    var front := matches[..|matches| - 1];
    if front == [] {
    } else {
      ComparedStarts(front);
    }
  }

  /** The slots are compared from the first one on, up to the first match. */
  lemma {:induction false} ComparedUpToMatch(matches: seq<bool>, k: nat)
    requires k < |matches| && matches[k] && forall j :: 0 <= j < k ==> !matches[j]
    ensures |Compared(matches)| == k + 1
    ensures forall i :: 0 <= i <= k ==> Compared(matches)[i] == FpMatch(i + 1, i == k)
  {
    var front, upTo := matches[..k], matches[..k + 1];
    assert upTo[..k] == front && upTo[k] in upTo;
    ComparedWithoutMatch(front);
    ComparedStops(matches, k + 1);
    assert Compared(upTo) == Compared(front) + [FpMatch(k + 1, true)];
  }

  // ----- which slots are enrolled -----

  // a removal that names the slot, or all of them, and a scan into it that completes
  function HeldAfter(has: bool, s: State, step: Step, x: int): bool {
    match step
    case MaRemove(fid) => has && fid != x && fid != 0
    case ScanEnds(g) => has || (g == 100 && s.press.Scanning? && s.press.slot == x)
    case _ => has
  }

  function Held(has: bool, s: State, run: seq<Step>, x: int): bool
    requires Feasible(s, run)
    decreases |run|
  {
    if run == [] then has else Held(HeldAfter(has, s, run[0], x), Apply(s, run[0]), run[1..], x)
  }

  lemma {:induction false} StepHolds(s: State, step: Step, x: int)
    requires 1 <= x <= MAXF && Enabled(s, step)
    ensures x in Apply(s, step).device.enrolled <==> HeldAfter(x in s.device.enrolled, s, step, x)
  {
  }

  /** In every run a slot is enrolled exactly if the last step that touches it is a completed scan into it and not a
      removal of it or of all slots, or if no step does and it was enrolled before. */
  lemma {:induction false} EnrolledIs(s: State, run: seq<Step>, x: int)
    requires 1 <= x <= MAXF && Feasible(s, run)
    ensures x in After(s, run).device.enrolled <==> Held(x in s.device.enrolled, s, run, x)
    decreases |run|
  {
    if run == [] {
    } else {
      StepHolds(s, run[0], x);
      EnrolledIs(Apply(s, run[0]), run[1..], x);
    }
  }

  predicate NoScanInto(s: State, run: seq<Step>, x: int)
    requires Feasible(s, run)
    decreases |run|
  {
    run == []
    || (!(run[0] == ScanEnds(100) && s.press.Scanning? && s.press.slot == x)
        && NoScanInto(Apply(s, run[0]), run[1..], x))
  }

  lemma {:induction false} StaysFree(s: State, run: seq<Step>, x: int)
    requires 1 <= x <= MAXF && Feasible(s, run) && NoScanInto(s, run, x) && x !in s.device.enrolled
    ensures x !in After(s, run).device.enrolled
    decreases |run|
  {
    if run == [] {
    } else {
      StepHolds(s, run[0], x);
      StaysFree(Apply(s, run[0]), run[1..], x);
    }
  }

  /** A removed slot stays free until a scan into it completes, and as long as it is free an enrolment call chooses it
      or a lower one. */
  lemma {:induction false} RemovedSlotIsNext(s: State, f: int, run: seq<Step>)
    requires 1 <= f <= MAXF && s.call.NoCall? && Feasible(Apply(s, MaRemove(f)), run)
    requires NoScanInto(Apply(s, MaRemove(f)), run, f)
    ensures var t := After(Apply(s, MaRemove(f)), run);
      f !in t.device.enrolled && (t.call.WriteFid? ==> 1 <= Apply(t, CallRuns).smaf.fid <= f)
  {
    StepHolds(s, MaRemove(f), f);
    StaysFree(Apply(s, MaRemove(f)), run, f);
  }

  // ----- a call and a press nothing comes between -----

  function WholeCall(s: State, open: bool): State {
    if open then OnCall(OnCall(OnEnter(s, true))) else OnEnter(s, false)
  }

  function ScanAndCommit(s: State, g: int): State
    requires s.press.Matched?
  {
    var t := OnUpdate(OnGrade(OnScanEnd(OnScanBegin(s), g)));
    if t.press.Updated? then OnSave(t) else t
  }

  function WholePress(s: State, cover: Cover, matches: seq<bool>, g: int): State
    requires s.press.Idle?
  {
    var t := OnPress(s, cover, matches);
    if t.press.Matched? then ScanAndCommit(t, g) else t
  }

  lemma {:induction false} ComparedStops(matches: seq<bool>, n: nat)
    requires n <= |matches| && true in matches[..n]
    ensures Compared(matches) == Compared(matches[..n])
    decreases |matches| - n
  {
    if n == |matches| {
      assert matches[..n] == matches;
    } else {
      assert matches[..n + 1][..n] == matches[..n];
      assert matches[..n + 1][n] == matches[n];
      ComparedStops(matches, n + 1);
      assert Compared(matches[..n + 1]) == Compared(matches[..n]) + [];
    }
  }

  // ----- the code -----

  class Mafprint {
    var fid: int
    var grade: int
    var hat: nat                          // the number of the call that brought the token
    const enrollment: array<nat>          // templates held, by slot
    ghost var overwritten: nat
    ghost var calls: seq<Call>
    ghost var sessions: seq<Session>
    var removed: seq<int>                 // FINGERPRINT_TEMPLATE_REMOVED messages

    ghost predicate Valid() {
      enrollment.Length == MAXF + 1
    }

    ghost function Enrolled(): set<int>
      requires Valid()
      reads enrollment
    {
      set i | 1 <= i <= MAXF && enrollment[i] > 0
    }

    // the state between calls and presses
    ghost function View(): State
      requires Valid()
      reads this, enrollment
    {
      State(Smaf(fid, grade, hat), NoCall, Idle, Device(Enrolled(), overwritten, calls), sessions)
    }

    constructor ()
      ensures Valid() && View() == Init({}) && removed == [] && fresh(enrollment)
    {
      enrollment := new nat[MAXF + 1](_ => 0);
      fid, grade, hat, removed := 0, 0, 0, [];
      overwritten, calls, sessions := 0, [], [];
    }

    method FindNewFid() returns (r: int)
      requires Valid()
      ensures r == FirstFree(Enrolled())
    {
      r := 1;
      while r <= MAXF && enrollment[r] != 0
        invariant 1 <= r <= MAXF + 1
        invariant NewFid(Enrolled(), 1) == NewFid(Enrolled(), r)
      {
        assert r in Enrolled();
        r := r + 1;
      }
      if r > MAXF {
        r := FP_NEWF_FAIL;
      }
    }

    method DoEnroll(open: bool)
      requires Valid()
      modifies this`hat, this`fid, this`grade, this`sessions
      ensures View() == WholeCall(old(View()), open)
    {
      ghost var s := OnEnter(View(), open);
      hat := hat + 1;
      if open {
        sessions := (if sessions == [] then []
                     else sessions[|sessions| - 1 := sessions[|sessions| - 1].(last := grade)])
                    + [Session({}, hat, Work([], [], []), 0, false)];
        assert sessions == s.sessions && Enrolled() == s.device.enrolled;
        fid := FindNewFid();
        sessions := sessions[|sessions| - 1 := sessions[|sessions| - 1].(start := Enrolled())];
        assert sessions == OnCall(s).sessions && Enrolled() == s.device.enrolled;
        grade := 0;
      } else if sessions != [] && sessions[|sessions| - 1].work.tokens == [] {
        sessions := sessions[|sessions| - 1 := sessions[|sessions| - 1].(hat := hat)];
      }
      assert Enrolled() == old(Enrolled());
    }

    // one press during an enrolment: matches are the answers of fp_match, g that of fp_enroll
    method DoPress(cover: Cover, matches: seq<bool>, g: int)
      requires Valid() && |matches| == MAXF && (1 <= fid <= MAXF || g == FP_PARA_ERROR)
      modifies this`grade, this`overwritten, this`calls, this`sessions, enrollment
      ensures View() == WholePress(old(View()), cover, matches, g)
    {
      if cover.Pressed? || grade == DONE {
        return;
      }
      if cover.Full? {
        assert matches[..0] == [];
        for id := 1 to MAXF + 1
          modifies this`calls
          invariant calls == old(calls) + Compared(matches[..id - 1]) && true !in matches[..id - 1]
        {
          assert matches[..id][..id - 1] == matches[..id - 1];
          calls := calls + [FpMatch(id, matches[id - 1])];
          assert Compared(matches[..id]) == Compared(matches[..id - 1]) + [FpMatch(id, matches[id - 1])];
          if matches[id - 1] {
            assert matches[..id][id - 1] in matches[..id];
            ComparedStops(matches, id);
            assert View() == OnPress(old(View()), cover, matches);
            return;
          }
        }
        assert matches[..MAXF] == matches;
        DoScanAndCommit(g);
      }
    }

    method DoScanAndCommit(g: int)
      requires Valid() && (1 <= fid <= MAXF || g == FP_PARA_ERROR)
      modifies this`grade, this`overwritten, this`calls, this`sessions, enrollment
      ensures View() == ScanAndCommit(old(View()).(press := Matched), g)
    {
      ghost var s := View().(press := Matched);
      ghost var i := |sessions| - 1;
      calls := calls + [FpEnroll(fid)];
      if g == DONE {
        overwritten := overwritten + if fid in Enrolled() then 1 else 0;
        enrollment[fid] := if enrollment[fid] > 0 then enrollment[fid] else 1;
        ghost var work := WorkOf(sessions, i);
        sessions := WithWork(sessions, i, work.(templates := work.templates + [fid]));
      }
      assert Enrolled() == OnScanEnd(OnScanBegin(s), g).device.enrolled;
      grade := g;
      if grade == DONE {
        ghost var work := WorkOf(sessions, i);
        sessions := WithWork(sessions, i, work.(stored := work.stored + [fid]));
        work := WorkOf(sessions, i);
        sessions := WithWork(sessions, i, work.(tokens := work.tokens + [(fid, hat)]));
      }
    }

    method DoRemove(fid: int)
      requires Valid()
      modifies enrollment, this`removed
      ensures View() == OnRemove(old(View()), fid)
      ensures forall k :: 1 <= k <= MAXF ==> enrollment[k] == if fid == k || fid == 0 then 0 else old(enrollment[k])
      ensures removed == old(removed) + (if fid == 0 then [1, 2, 3, 4, 5] else if 1 <= fid <= MAXF then [fid] else [])
    {
      if fid > 0 {
        if fid <= MAXF {
          enrollment[fid] := 0;
          removed := removed + [fid];
        }
        assert Enrolled() == old(Enrolled()) - {fid};
      } else if fid == 0 {
        ghost var all := [1, 2, 3, 4, 5];
        for id := 1 to MAXF + 1
          invariant removed == old(removed) + all[..id - 1]
          invariant forall k :: 1 <= k < id ==> enrollment[k] == 0
          invariant forall k :: id <= k <= MAXF ==> enrollment[k] == old(enrollment[k])
        {
          enrollment[id] := 0;
          assert all[..id] == all[..id - 1] + [id];
          removed := removed + [id];
        }
        assert Enrolled() == {} == old(Enrolled()) - {1, 2, 3, 4, 5};
      }
    }
  }
}
