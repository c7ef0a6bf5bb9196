/** The scheduler of the usage reports: stored preferences decide when the next report may be uploaded. */
module ReportScheduler {
  import opened Options

  const MILLIS_PER_HOUR := 60 * 60 * 1000
  const MILLIS_PER_DAY := 24 * MILLIS_PER_HOUR
  const RETRY := 3 * MILLIS_PER_HOUR

  datatype Prefs = Prefs(
    lastChecked: int,            // 0 if never set
    lastVersion: Option<string>, // hash of the version last reported
    nextAlarm: int,
    firstBoot: bool,
    optIn: Option<bool>)         // true unless set

  // an upload that succeeded; forced if it is the first one since the first launch of the app
  datatype Upload = Upload(time: int, hash: string, forced: bool)

  // forcing: the app was launched for the first time and nothing was uploaded since
  datatype State = State(prefs: Prefs, uploads: seq<Upload>, forcing: bool)

  function Init(): State {
    State(Prefs(0, None, 0, true, None), [], false)
  }

  predicate OptedIn(p: Prefs) {
    p.optIn != Some(false)
  }

  function Interval(timeFrame: int): int {
    timeFrame * MILLIS_PER_DAY
  }

  function SetAlarm(p: Prefs, interval: int, millisFromNow: int, now: int): Prefs {
    if !OptedIn(p) then p
    else if millisFromNow > 0 then p.(nextAlarm := now + millisFromNow)
    else
      var lastSynced := if p.lastChecked == 0 then now else p.lastChecked;
      p.(lastChecked := lastSynced, nextAlarm := lastSynced + interval)
  }

  // whether launchService starts an upload; a new version counts as last reported at the start of time
  predicate Gate(p: Prefs, interval: int, online: bool, hash: string, now: int) {
    && online && OptedIn(p) && p.lastChecked != 0
    && now - (if p.lastVersion == Some(hash) then p.lastChecked else 1) >= interval
  }

  // the end of an upload
  function Reported(s: State, interval: int, result: bool, hash: string, now: int): State {
    if result then
      State(SetAlarm(s.prefs.(lastChecked := now, lastVersion := Some(hash)), interval, 0, now),
            s.uploads + [Upload(now, hash, s.forcing)], false)
    else s.(prefs := SetAlarm(s.prefs, interval, RETRY, now))
  }

  // launchService and, if it starts one, the upload
  function Launch(s: State, interval: int, online: bool, hash: string, now: int, success: bool): State {
    if Gate(s.prefs, interval, online, hash, now) then Reported(s, interval, success, hash, now)
    else if online && OptedIn(s.prefs) && s.prefs.lastChecked == 0 then
      s.(prefs := SetAlarm(s.prefs, interval, 0, now))
    else s
  }

  // the answers of the environment at an event
  datatype Env = Env(online: bool, hash: string, now: int, success: bool)

  datatype Event =
    | Boot(e: Env, cookie: bool)  // cookie: the opt-out file exists
    | Connectivity(e: Env)        // also the alarm
    | AppOpened(e: Env)

  function Apply(s: State, interval: int, x: Event): State {
    match x
    case Boot(e, cookie) =>
      if s.prefs.optIn.None? && cookie then s.(prefs := s.prefs.(optIn := Some(false), firstBoot := false))
      else s.(prefs := SetAlarm(s.prefs, interval, 0, e.now))
    case Connectivity(e) => Launch(s, interval, e.online, e.hash, e.now, e.success)
    case AppOpened(e) =>
      var p := s.prefs.(optIn := Some(true));
      if p.firstBoot then
        Launch(State(p.(firstBoot := false, lastChecked := 1), s.uploads, true),
               interval, e.online, e.hash, e.now, e.success)
      else s.(prefs := p)
  }

  function After(s: State, interval: int, run: seq<Event>): State
    decreases |run|
  {
    if run == [] then s else After(Apply(s, interval, run[0]), interval, run[1..])
  }

  // the clock does not go back
  predicate InOrder(run: seq<Event>, from: int)
    decreases |run|
  {
    run == [] || (from <= run[0].e.now && InOrder(run[1..], run[0].e.now))
  }

  // ----- uploads are an interval apart -----

  predicate Spaced(uploads: seq<Upload>, interval: int) {
    forall i, j :: 0 <= i < |uploads| && j == i + 1 < |uploads| && uploads[i].hash == uploads[j].hash ==>
      uploads[j].time - uploads[i].time >= interval || uploads[j].forced
  }

  predicate ForcedOnce(s: State) {
    && (s.forcing ==> !s.prefs.firstBoot)
    && (s.prefs.firstBoot || s.forcing ==> forall i :: 0 <= i < |s.uploads| ==> !s.uploads[i].forced)
    && (forall i, j :: 0 <= i < j < |s.uploads| ==> !(s.uploads[i].forced && s.uploads[j].forced))
  }

  // the preferences remember the last upload, unless the first launch made them forget it
  predicate Remembers(s: State, now: int) {
    var n := |s.uploads|;
    n > 0 ==>
      && s.prefs.lastVersion == Some(s.uploads[n - 1].hash) && s.uploads[n - 1].time <= now
      && (s.forcing || s.prefs.lastChecked == 0 || s.prefs.lastChecked >= s.uploads[n - 1].time)
  }

  predicate Inv(s: State, interval: int, now: int) {
    Spaced(s.uploads, interval) && ForcedOnce(s) && Remembers(s, now)
  }

  lemma {:induction false} LaunchKeepsInv(s: State, interval: int, e: Env, from: int)
    requires Inv(s, interval, from) && from <= e.now
    ensures Inv(Launch(s, interval, e.online, e.hash, e.now, e.success), interval, e.now)
  {
  }

  lemma {:induction false} StepKeepsInv(s: State, interval: int, x: Event, from: int)
    requires Inv(s, interval, from) && from <= x.e.now
    ensures Inv(Apply(s, interval, x), interval, x.e.now)
  {
    match x {
      case Boot(e, cookie) =>
      case Connectivity(e) => LaunchKeepsInv(s, interval, e, from);
      case AppOpened(e) =>
        if s.prefs.firstBoot {
          var p := s.prefs.(optIn := Some(true), firstBoot := false, lastChecked := 1);
          LaunchKeepsInv(State(p, s.uploads, true), interval, e, from);
        }
    }
  }

  function LastTime(run: seq<Event>, from: int): int {
    if run == [] then from else run[|run| - 1].e.now
  }

  lemma {:induction false} RunKeepsInv(s: State, interval: int, run: seq<Event>, from: int)
    requires Inv(s, interval, from) && InOrder(run, from)
    ensures Inv(After(s, interval, run), interval, LastTime(run, from))
    decreases |run|
  {
    if run == [] {
    } else {
      StepKeepsInv(s, interval, run[0], from);
      RunKeepsInv(Apply(s, interval, run[0]), interval, run[1..], run[0].e.now);
    }
  }

  /** In every run with a clock that does not go back, consecutive uploads under the same version hash are at least
      the interval apart, except for at most one: the first upload after the first launch of the app. */
  lemma {:induction false} UploadsAreSpaced(timeFrame: int, run: seq<Event>, from: int)
    requires InOrder(run, from)
    ensures var s := After(Init(), Interval(timeFrame), run);
      Spaced(s.uploads, Interval(timeFrame)) && ForcedOnce(s)
  {
    RunKeepsInv(Init(), Interval(timeFrame), run, from);
  }

  // ----- the alarm -----

  /** The alarm setAlarm(0) stores is the first instant at which the gate opens for the version last reported; for
      any other version the gate opens one interval after the start of time. */
  lemma {:induction false} AlarmIsFirstInstant(p: Prefs, interval: int, millisFromNow: int, now: int, hash: string,
                                               t: int)
    requires OptedIn(p) && millisFromNow <= 0
    ensures var q := SetAlarm(p, interval, millisFromNow, now);
      Gate(q, interval, true, hash, t) <==>
        q.lastChecked != 0 && t >= if q.lastVersion == Some(hash) then q.nextAlarm else interval + 1
  {
  }

  // no event but a first launch or a new version opens the gate before the alarm
  predicate Quiet(run: seq<Event>, hash: string, until: int) {
    forall i :: 0 <= i < |run| ==> run[i].e.now < until && run[i].e.hash == hash
  }

  /** After an upload nothing is uploaded before the alarm it set, whatever happens until then under the same
      version once the app has been launched for the first time; and then the alarm's own event uploads. */
  lemma {:induction false} NothingUntilAlarm(s: State, interval: int, run: seq<Event>, hash: string, alarm: Env)
    requires !s.prefs.firstBoot && s.prefs.lastVersion == Some(hash) && s.prefs.lastChecked != 0
    requires OptedIn(s.prefs) && s.prefs.optIn.Some?
    requires Quiet(run, hash, s.prefs.lastChecked + interval)
    requires alarm.online && alarm.hash == hash && alarm.success && alarm.now >= s.prefs.lastChecked + interval
    ensures After(s, interval, run).uploads == s.uploads
    ensures Apply(After(s, interval, run), interval, Connectivity(alarm)).uploads
         == s.uploads + [Upload(alarm.now, hash, s.forcing)]
    decreases |run|
  {
    if run == [] {
    } else {
      assert run[0].e.now < s.prefs.lastChecked + interval && run[0].e.hash == hash;
      var r := Apply(s, interval, run[0]);
      assert r.uploads == s.uploads && r.forcing == s.forcing && r.prefs.lastChecked == s.prefs.lastChecked;
      forall i | 0 <= i < |run[1..]|
        ensures run[1..][i].e.now < s.prefs.lastChecked + interval && run[1..][i].e.hash == hash
      {
        assert run[1..][i] == run[i + 1];
      }
      NothingUntilAlarm(r, interval, run[1..], hash, alarm);
    }
  }

  // ----- users who do not want to report -----

  /** While a user has opted out nothing is uploaded and no preference changes, until the app is opened. */
  lemma {:induction false} NothingWhileOptedOut(s: State, interval: int, run: seq<Event>)
    requires s.prefs.optIn == Some(false) && forall x :: x in run ==> !x.AppOpened?
    ensures After(s, interval, run) == s
    decreases |run|
  {
    if run == [] {
    } else {
      assert run[0] in run;
      NothingWhileOptedOut(s, interval, run[1..]);
    }
  }

  /** A device that boots with the opt-out file before any choice was made reports nothing until the app is opened. */
  lemma {:induction false} CookieOptsOut(s: State, interval: int, boot: Env, run: seq<Event>)
    requires s.prefs.optIn == None && forall x :: x in run ==> !x.AppOpened?
    ensures After(s, interval, [Boot(boot, true)] + run).uploads == s.uploads
  {
    assert ([Boot(boot, true)] + run)[1..] == run;
    NothingWhileOptedOut(Apply(s, interval, Boot(boot, true)), interval, run);
  }

  /** When a connectivity event uploads: online, not opted out, after a first check, and as many days after the last
      one as the setting says, or after the start of time for a version not yet reported. */
  lemma {:induction false} WhenUploaded(s: State, timeFrame: int, e: Env)
    ensures var since := if s.prefs.lastVersion == Some(e.hash) then s.prefs.lastChecked else 1;
      var due := && e.online && s.prefs.optIn != Some(false) && s.prefs.lastChecked != 0
                 && e.now >= since + timeFrame * 86400000;
      Apply(s, Interval(timeFrame), Connectivity(e)).uploads
        == s.uploads + (if due && e.success then [Upload(e.now, e.hash, s.forcing)] else [])
  {
  }

  /** A boot before the first check fakes one, to leave the user the report interval for opting out. The next
      connectivity event waits for that interval exactly if its version was reported before; a version never reported
      is uploaded at once, an interval after the start of time. */
  lemma {:induction false} GraceOnlyForKnownVersion(s: State, timeFrame: int, boot: Env, e: Env)
    requires s.prefs.lastChecked == 0 && s.prefs.optIn != Some(false) && boot.now != 0
    requires e.online && e.success
    ensures var r := After(s, Interval(timeFrame), [Boot(boot, false), Connectivity(e)]);
      r.uploads != s.uploads <==>
        e.now >= timeFrame * 86400000 + if s.prefs.lastVersion == Some(e.hash) then boot.now else 1
  {
    var interval := Interval(timeFrame);
    assert [Boot(boot, false), Connectivity(e)][1..] == [Connectivity(e)] && [Connectivity(e)][1..] == [];
    var b := Apply(s, interval, Boot(boot, false));
    assert After(b, interval, [Connectivity(e)]) == Apply(b, interval, Connectivity(e));
    WhenUploaded(b, timeFrame, e);
  }

  /** An upload that fails is due again three hours later. */
  lemma {:induction false} FailedUploadIsRetried(s: State, interval: int, e: Env, again: Env)
    requires Gate(s.prefs, interval, e.online, e.hash, e.now) && !e.success
    requires again.online && again.hash == e.hash && again.success && again.now >= e.now
    ensures var r := Apply(s, interval, Connectivity(e));
      && r.uploads == s.uploads && r.prefs.nextAlarm == e.now + 10800000
      && Apply(r, interval, Connectivity(again)).uploads == s.uploads + [Upload(again.now, again.hash, s.forcing)]
  {
  }

  // ----- the code -----

  class ReportingServiceManager {
    const timeFrame: int
    var lastChecked: int
    var lastVersion: Option<string>
    var nextAlarm: int
    var firstBoot: bool
    var optIn: Option<bool>
    ghost var uploads: seq<Upload>
    ghost var forcing: bool

    ghost function View(): State
      reads this
    {
      State(Prefs(lastChecked, lastVersion, nextAlarm, firstBoot, optIn), uploads, forcing)
    }

    constructor (timeFrame: int)
      ensures this.timeFrame == timeFrame && View() == Init()
    {
      this.timeFrame := timeFrame;
      lastChecked, lastVersion, nextAlarm, firstBoot, optIn := 0, None, 0, true, None;
      uploads, forcing := [], false;
    }

    method DoSetAlarm(millis: int, now: int)
      modifies this`lastChecked, this`nextAlarm
      ensures View() == old(View()).(prefs := SetAlarm(old(View()).prefs, Interval(timeFrame), millis, now))
    {
      if optIn == Some(false) {
        return;
      }
      var millisFromNow := millis;
      if millisFromNow <= 0 {
        var lastSynced := lastChecked;
        if lastSynced == 0 {
          lastSynced := now;
          lastChecked := lastSynced;
        }
        millisFromNow := (lastSynced + timeFrame * MILLIS_PER_DAY) - now;
      }
      nextAlarm := now + millisFromNow;
    }

    // the upload task's last step
    method OnPostExecute(result: bool, hash: string, now: int)
      modifies this`lastChecked, this`lastVersion, this`nextAlarm, this`uploads, this`forcing
      ensures View() == Reported(old(View()), Interval(timeFrame), result, hash, now)
    {
      var interval := RETRY;
      if result {
        lastChecked := now;
        lastVersion := Some(hash);
        interval := 0;
        uploads := uploads + [Upload(now, hash, forcing)];
        forcing := false;
      }
      DoSetAlarm(interval, now);
    }

    method LaunchService(online: bool, hash: string, now: int, success: bool)
      modifies this`lastChecked, this`lastVersion, this`nextAlarm, this`uploads, this`forcing
      ensures View() == Launch(old(View()), Interval(timeFrame), online, hash, now, success)
    {
      if !online {
        return;
      }
      if optIn == Some(false) {
        return;
      }
      var lastSynced := lastChecked;
      if lastSynced == 0 {
        DoSetAlarm(0, now);
        return;
      }
      if lastVersion != Some(hash) {
        lastSynced := 1;
      }
      var timeLeft := now - lastSynced;
      if timeLeft < timeFrame * MILLIS_PER_DAY {
        return;
      }
      OnPostExecute(success, hash, now);
    }

    method OnReceive(x: Event)
      requires !x.AppOpened?
      modifies this
      ensures View() == Apply(old(View()), Interval(timeFrame), x)
    {
      match x {
        case Boot(e, cookie) =>
          if optIn.None? && cookie {
            optIn, firstBoot := Some(false), false;
            return;
          }
          DoSetAlarm(0, e.now);
        case Connectivity(e) => LaunchService(e.online, e.hash, e.now, e.success);
      }
    }

    // the part of the app's onCreate that touches the preferences
    method OnCreate(e: Env)
      modifies this
      ensures View() == Apply(old(View()), Interval(timeFrame), AppOpened(e))
    {
      optIn := Some(true);
      if firstBoot {
        firstBoot := false;
        lastChecked := 1;
        forcing := true;
        LaunchService(e.online, e.hash, e.now, e.success);
      }
    }
  }
}
