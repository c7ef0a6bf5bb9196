/** Passes of the download thread with nothing in between, and how often a failed download is retried. */
module EpoRetry {
  import opened Bytes
  import opened Options
  import opened EpoDownload
  import GpsCalendar

  // one attempt for each update of a pass
  datatype Pass = Pass(first: Outcome, second: Outcome, outside: Outside)

  function FetchBlock(s: State, o: Outcome, days: nat, zone: int): State {
    if s.flags.updated then AfterFetch(FileUpdate(s.(flags := s.flags.(failed := false)), o, days, zone)) else s
  }

  function ResumeBlock(s: State, p: Pass, days: nat, zone: int): State {
    if !ResumeDue(s, p.outside) then s
    else
      AfterResume(if Stale(s.files.merged, p.outside, zone) then StartAgain(Primed(s))
                  else FileUpdate(Primed(s), p.second, days, zone), s.count)
  }

  // one pass of thread_epo_file_update
  function ThreadPass(s: State, p: Pass, days: nat, zone: int): State {
    WifiBlock(ResumeBlock(FetchBlock(s, p.first, days, zone), p, days, zone), p.outside, zone)
  }

  // ----- a pass is a run of the thread's steps -----

  function Steps(m: Machine, xs: seq<Input>, zone: int): Machine
    decreases |xs|
  {
    if xs == [] then m else Steps(ThreadStep(m, xs[0], zone), xs[1..], zone)
  }

  lemma {:induction false} StepsConcat(m: Machine, a: seq<Input>, b: seq<Input>, zone: int)
    ensures Steps(m, a + b, zone) == Steps(Steps(m, a, zone), b, zone)
    decreases |a|
  {
    if a == [] {
      assert a + b == b;
    } else {
      assert (a + b)[1..] == a[1..] + b;
      StepsConcat(ThreadStep(m, a[0], zone), a[1..], b, zone);
    }
  }

  lemma {:induction false} OneStep(m: Machine, x: Input, xs: seq<Input>, zone: int)
    ensures Steps(m, [x] + xs, zone) == Steps(ThreadStep(m, x, zone), xs, zone)
  {
    assert ([x] + xs)[1..] == xs;
  }

  // an update inside one of the blocks
  lemma {:induction false} UpdateIsRun(s: State, block: Block, x: Input, zone: int) returns (xs: seq<Input>)
    ensures Steps(Machine(s, Transfer(s.count, block)), xs, zone)
         == Machine(FileUpdate(s, x.o, x.days, zone), Returned(block))
  {
    var m1 := Machine(s, Transfer(s.count, block));
    if !x.o.Fetched? {
      xs := [x] + [];
      OneStep(m1, x, [], zone);
    } else {
      var m2 := ThreadStep(m1, x, zone);
      var m3 := ThreadStep(m2, x, zone);
      var m4 := ThreadStep(m3, x, zone);
      var last := if Rejected(m3.s, s.count, zone) then [] else [x] + [];
      OneStep(m4, x, [], zone);
      OneStep(m3, x, last, zone);
      OneStep(m2, x, [x] + last, zone);
      OneStep(m1, x, [x] + ([x] + last), zone);
      xs := [x] + ([x] + ([x] + last));
    }
  }

  lemma {:induction false} FetchIsRun(s: State, x: Input, zone: int) returns (xs: seq<Input>)
    ensures Steps(Machine(s, Top), xs, zone) == Machine(FetchBlock(s, x.o, x.days, zone), BeforeResume)
  {
    var m := Machine(s, Top);
    if !s.flags.updated {
      xs := [x] + [];
      OneStep(m, x, [], zone);
    } else {
      var s1 := s.(flags := s.flags.(failed := false));
      var update := UpdateIsRun(s1, Fetching, x, zone);
      var m2 := Machine(FileUpdate(s1, x.o, x.days, zone), Returned(Fetching));
      OneStep(m2, x, [], zone);
      StepsConcat(ThreadStep(m, x, zone), update, [x] + [], zone);
      OneStep(m, x, update + ([x] + []), zone);
      xs := [x] + (update + ([x] + []));
    }
  }

  lemma {:induction false} ResumeIsRun(s: State, p: Pass, days: nat, zone: int) returns (xs: seq<Input>)
    ensures Steps(Machine(s, BeforeResume), xs, zone) == Machine(ResumeBlock(s, p, days, zone), BeforeWifi)
  {
    var x := Input(p.second, p.outside, days);
    var m := Machine(s, BeforeResume);
    var m1 := ThreadStep(m, x, zone);
    if !ResumeDue(s, p.outside) {
      xs := [x] + [];
      OneStep(m, x, [], zone);
    } else if Stale(s.files.merged, p.outside, zone) {
      OneStep(m1, x, [], zone);
      OneStep(m, x, [x] + [], zone);
      xs := [x] + ([x] + []);
    } else {
      var block := Resuming(s.count);
      var update := UpdateIsRun(Primed(s), block, x, zone);
      OneStep(Machine(FileUpdate(Primed(s), x.o, days, zone), Returned(block)), x, [], zone);
      StepsConcat(m1, update, [x] + [], zone);
      OneStep(m, x, update + ([x] + []), zone);
      xs := [x] + (update + ([x] + []));
    }
  }

  /** A pass with nothing in between is a run of the thread's steps from the top of its loop to the top. */
  lemma {:induction false} PassIsRun(s: State, p: Pass, days: nat, zone: int) returns (xs: seq<Input>)
    ensures Steps(Machine(s, Top), xs, zone) == Machine(ThreadPass(s, p, days, zone), Top)
  {
    var fetch := FetchIsRun(s, Input(p.first, p.outside, days), zone);
    var s1 := FetchBlock(s, p.first, days, zone);
    var resume := ResumeIsRun(s1, p, days, zone);
    var s2 := ResumeBlock(s1, p, days, zone);
    var x := Input(p.second, p.outside, days);
    OneStep(Machine(s2, BeforeWifi), x, [], zone);
    StepsConcat(Machine(s1, BeforeResume), resume, [x] + [], zone);
    StepsConcat(Machine(s, Top), fetch, resume + ([x] + []), zone);
    xs := fetch + (resume + ([x] + []));
  }

  // ----- retries -----

  // the download is neither finished nor given up
  predicate Active(s: State) {
    s.flags.updated || s.flags.failed
  }

  predicate Usual(s: State, days: nat) {
    && s.count < Wanted(days) && s.tries.times < MAX_RETRIES
    && (s.count > 0 ==> s.files.merged.Some?)
  }

  function Alarmed(s: State): State {
    s.(flags := s.flags.(retry := true))
  }

  // the retry alarm has gone off, and the thread runs once
  function NextPass(s: State, p: Pass, days: nat, zone: int): State {
    ThreadPass(Alarmed(s), p, days, zone)
  }

  // the server has not moved on, and a first piece is less than a day old by the given clock
  predicate GoodAttempt(s: State, o: Outcome, x: Outside, zone: int) {
    o.Fetched? ==>
      && !Changed(Land(s, s.count, o), s.count, zone)
      && (s.count == 0 ==> !Stale(Some(o.piece), x, zone))
  }

  // a pass on a connected network, with good attempts, not later than the given clock; the period after which data
  // are fetched anew on Wi-Fi is 1, 3, 15 or 30 days
  predicate GoodPass(s: State, p: Pass, days: nat, zone: int, x: Outside) {
    var s0 := Alarmed(s);
    && p.outside.network.up && p.outside.network.active && p.outside.wifiDays >= 1
    && p.outside.clock <= x.clock && p.outside.daemon == x.daemon
    && GoodAttempt(s0, p.first, x, zone) && GoodAttempt(FetchBlock(s0, p.first, days, zone), p.second, x, zone)
  }

  // the data on disk, and the daemon's data behind it, are a day old
  predicate Hopeless(s: State, x: Outside, zone: int) {
    Stale(s.files.merged, x, zone) && Stale(None, x, zone)
  }

  function RetriesLeft(s: State): nat
    requires s.tries.times < MAX_RETRIES
  {
    if s.tries.piece == UNSET || s.tries.piece == s.count then MAX_RETRIES - s.tries.times else MAX_RETRIES + 1
  }

  // passes that suffice: for the pieces left, for this piece, and for starting again once
  function Budget(s: State, days: nat, zone: int, x: Outside): nat
    requires Usual(s, days)
  {
    (Wanted(days) - s.count) * (MAX_RETRIES + 2)
    + (if s.flags.updated then MAX_RETRIES + 2 else RetriesLeft(s))
    + (if Stale(s.files.merged, x, zone) then (Wanted(days) + 1) * (MAX_RETRIES + 2) + 1 else 0)
  }

  lemma {:induction false} BudgetBound(s: State, days: nat, zone: int, x: Outside)
    requires Usual(s, days)
    ensures Budget(s, days, zone, x) <= 265
  {
  }

  // the state of the data never gets worse
  predicate Progress(s: State, t: State, days: nat, zone: int, x: Outside)
    requires Usual(s, days)
  {
    Usual(t, days) && Active(t) && !Hopeless(t, x, zone) && Budget(t, days, zone, x) < Budget(s, days, zone, x)
  }

  lemma {:induction false} UpdateKeepsAge(s: State, o: Outcome, days: nat, zone: int, x: Outside)
    requires Usual(s, days) && PlausibleZone(zone) && GoodAttempt(s, o, x, zone)
    ensures Stale(FileUpdate(s, o, days, zone).files.merged, x, zone) ==> Stale(s.files.merged, x, zone)
  {
    if o.Fetched? && s.count > 0 {
      var was, now := s.files.merged.value, s.files.merged.value + o.piece;
      assert |was| >= RECORD ==> now[0] == was[0] && now[1] == was[1] && now[2] == was[2];
      assert FileUpdate(s, o, days, zone).files.merged == Some(now);
    }
  }

  // an update completes the download, moves on to the next piece, or fails at this one
  predicate Updated(s: State, t: State, days: nat) {
    && t.tries == s.tries
    && ((t.count == 0 && !t.flags.failed && !t.flags.updated)
        || (t.count == s.count + 1 < Wanted(days) && t.flags == s.flags && t.files.merged.Some?)
        || (t.count == s.count && t.flags == s.flags.(failed := true) && (s.count > 0 ==> t.files.merged.Some?)))
  }

  lemma {:induction false} UpdateMoves(s: State, o: Outcome, days: nat, zone: int, x: Outside)
    requires Usual(s, days) && GoodAttempt(s, o, x, zone)
    ensures Updated(s, FileUpdate(s, o, days, zone), days)
  {
  }

  lemma {:induction false} FetchProgress(s: State, t: State, days: nat, zone: int, x: Outside)
    requires Usual(s, days) && s.flags.updated && !Hopeless(s, x, zone)
    requires Updated(s.(flags := s.flags.(failed := false)), t, days)
    requires Stale(t.files.merged, x, zone) ==> Stale(s.files.merged, x, zone)
    ensures var u := AfterFetch(t);
      && Advanced(s, u, days, zone, x)
      && (u.flags.failed ==> !u.flags.updated && u.flags.retry == s.flags.retry)
  {
  }

  // the download is over with data no older than before, or it has come closer to its end
  predicate Advanced(s: State, t: State, days: nat, zone: int, x: Outside)
    requires Usual(s, days)
  {
    if Active(t) then Progress(s, t, days, zone, x)
    else t.tries.times < MAX_RETRIES && (Stale(t.files.merged, x, zone) ==> Stale(s.files.merged, x, zone))
  }

  lemma {:induction false} FetchAdvances(s: State, o: Outcome, days: nat, zone: int, x: Outside)
    requires Usual(s, days) && PlausibleZone(zone) && s.flags.updated && !Hopeless(s, x, zone)
    requires GoodAttempt(s, o, x, zone)
    ensures var t := FetchBlock(s, o, days, zone);
      && Advanced(s, t, days, zone, x) && (Stale(t.files.merged, x, zone) ==> Stale(s.files.merged, x, zone))
      && (t.flags.failed ==> !t.flags.updated && t.flags.retry == s.flags.retry)
  {
    var s1 := s.(flags := s.flags.(failed := false));
    UpdateMoves(s1, o, days, zone, x);
    UpdateKeepsAge(s1, o, days, zone, x);
    FetchProgress(s, FileUpdate(s1, o, days, zone), days, zone, x);
  }

  lemma {:induction false} ResumeProgress(s: State, t: State, days: nat, zone: int, x: Outside)
    requires Usual(s, days) && s.flags.failed && !s.flags.updated && !Hopeless(s, x, zone)
    requires Updated(Primed(s), t, days)
    requires Stale(t.files.merged, x, zone) ==> Stale(s.files.merged, x, zone)
    ensures Advanced(s, AfterResume(t, s.count), days, zone, x)
  {
  }

  lemma {:induction false} RestartProgress(s: State, days: nat, zone: int, x: Outside)
    requires Usual(s, days) && s.flags.failed && !s.flags.updated && !Hopeless(s, x, zone)
    requires Stale(s.files.merged, x, zone)
    ensures var u := AfterResume(StartAgain(Primed(s)), s.count); Active(u) && Progress(s, u, days, zone, x)
  {
  }

  lemma {:induction false} ResumeAdvances(s: State, p: Pass, days: nat, zone: int, x: Outside)
    requires Usual(s, days) && PlausibleZone(zone) && s.flags.failed && !s.flags.updated && !Hopeless(s, x, zone)
    requires ResumeDue(s, p.outside) && p.outside.clock <= x.clock && p.outside.daemon == x.daemon
    requires GoodAttempt(s, p.second, x, zone)
    ensures Advanced(s, ResumeBlock(s, p, days, zone), days, zone, x)
  {
    if Stale(s.files.merged, p.outside, zone) {
      RestartProgress(s, days, zone, x);
    } else {
      UpdateMoves(Primed(s), p.second, days, zone, x);
      UpdateKeepsAge(Primed(s), p.second, days, zone, x);
      ResumeProgress(s, FileUpdate(Primed(s), p.second, days, zone), days, zone, x);
    }
  }

  // data that have run out on Wi-Fi are a day old, so a request behind a download that is over comes only once
  lemma {:induction false} WifiAdvances(s: State, t: State, x0: Outside, days: nat, zone: int, x: Outside)
    requires Usual(s, days) && Active(s) && !Hopeless(s, x, zone) && Advanced(s, t, days, zone, x)
    requires x0.clock <= x.clock && x0.daemon == x.daemon && x0.wifiDays >= 1
    ensures var u := WifiBlock(t, x0, zone); Active(u) ==> Progress(s, u, days, zone, x)
  {
    if !Active(t) && WifiExpired(t.files.merged, x0, zone) {
      assert x0.wifiDays * DAY >= DAY;
      assert Stale(t.files.merged, x, zone);
    }
  }

  lemma {:induction false} AdvancedTwice(s: State, t: State, u: State, days: nat, zone: int, x: Outside)
    requires Usual(s, days) && Active(t) && Progress(s, t, days, zone, x) && Advanced(t, u, days, zone, x)
    requires Stale(t.files.merged, x, zone) ==> Stale(s.files.merged, x, zone)
    ensures Advanced(s, u, days, zone, x)
  {
  }

  lemma {:induction false} BlocksAdvance(s: State, p: Pass, days: nat, zone: int, x: Outside)
    requires Usual(s, days) && PlausibleZone(zone) && Active(s) && s.flags.retry && !Hopeless(s, x, zone)
    requires GoodPass(s, p, days, zone, x)
    ensures Advanced(s, ResumeBlock(FetchBlock(s, p.first, days, zone), p, days, zone), days, zone, x)
  {
    var t := FetchBlock(s, p.first, days, zone);
    if s.flags.updated {
      FetchAdvances(s, p.first, days, zone, x);
      if t.flags.failed {
        ResumeAdvances(t, p, days, zone, x);
        AdvancedTwice(s, t, ResumeBlock(t, p, days, zone), days, zone, x);
      }
    } else {
      ResumeAdvances(s, p, days, zone, x);
    }
  }

  lemma {:induction false} AlarmKeeps(s: State, p: Pass, days: nat, zone: int, x: Outside)
    requires Usual(s, days) && GoodPass(s, p, days, zone, x)
    ensures var s0 := Alarmed(s);
      && Usual(s0, days) && GoodPass(s0, p, days, zone, x)
      && (Active(s0) <==> Active(s)) && (Hopeless(s0, x, zone) <==> Hopeless(s, x, zone))
      && Budget(s0, days, zone, x) == Budget(s, days, zone, x)
  {
    assert Alarmed(Alarmed(s)) == Alarmed(s);
  }

  /** Every good pass behind a retry alarm finishes the download, gives it up, or leaves fewer passes to go, unless the
      data on disk and the daemon's data behind it are a day old; on Wi-Fi as well, where a download that is over may
      be asked for again in the same pass. */
  lemma {:induction false} PassAdvances(s: State, p: Pass, days: nat, zone: int, x: Outside)
    requires Usual(s, days) && PlausibleZone(zone) && Active(s) && !Hopeless(s, x, zone)
    requires GoodPass(s, p, days, zone, x)
    ensures var t := NextPass(s, p, days, zone); Active(t) ==> Progress(s, t, days, zone, x)
  {
    var s0 := Alarmed(s);
    AlarmKeeps(s, p, days, zone, x);
    BlocksAdvance(s0, p, days, zone, x);
    WifiAdvances(s0, ResumeBlock(FetchBlock(s0, p.first, days, zone), p, days, zone), p.outside, days, zone, x);
  }

  function Passes(s: State, passes: seq<Pass>, days: nat, zone: int): State
    decreases |passes|
  {
    if passes == [] || !Active(s) then s else Passes(NextPass(s, passes[0], days, zone), passes[1..], days, zone)
  }

  predicate AllGood(s: State, passes: seq<Pass>, days: nat, zone: int, x: Outside)
    decreases |passes|
  {
    passes == [] || !Active(s)
    || (GoodPass(s, passes[0], days, zone, x)
        && AllGood(NextPass(s, passes[0], days, zone), passes[1..], days, zone, x))
  }

  /** Then the download is finished or given up within the budget of passes. */
  lemma {:induction false} RetryEnds(s: State, passes: seq<Pass>, days: nat, zone: int, x: Outside)
    requires Usual(s, days) && PlausibleZone(zone) && !Hopeless(s, x, zone)
    requires AllGood(s, passes, days, zone, x) && |passes| >= Budget(s, days, zone, x)
    ensures !Active(Passes(s, passes, days, zone))
    decreases |passes|
  {
    if !Active(s) {
    } else {
      PassAdvances(s, passes[0], days, zone, x);
      var t := NextPass(s, passes[0], days, zone);
      if Active(t) {
        RetryEnds(t, passes[1..], days, zone, x);
      }
    }
  }

  // ----- giving up -----

  // the transfer fails on a connected network, with data on disk less than a day old
  predicate InVain(s: State, p: Pass, zone: int) {
    && p.outside.network.up && p.outside.network.active && p.outside.wifiDays >= 1
    && p.second.TransferFailed? && !Stale(s.files.merged, p.outside, zone)
  }

  // a failed download whose piece has been tried again n times
  predicate TriedAgain(s: State, n: nat) {
    && s.flags.failed && !s.flags.updated && s.count < UNSET
    && s.tries == Tries(if n == 0 then UNSET else s.count, n)
  }

  lemma {:induction false} OneMoreTry(s: State, p: Pass, n: nat, days: nat, zone: int)
    requires TriedAgain(s, n) && n < MAX_RETRIES && InVain(s, p, zone)
    ensures var t := NextPass(s, p, days, zone);
      && t.count == s.count && t.files.merged == s.files.merged && !t.flags.updated
      && (if n + 1 < MAX_RETRIES then TriedAgain(t, n + 1) && !t.flags.retry
          else !t.flags.failed && t.tries == Tries(UNSET, 0))
  {
    assert p.outside.wifiDays * DAY >= DAY;
  }

  /** A piece whose transfer goes on failing is tried again exactly ten times, each time behind an alarm; then the
      download is given up, and the count of tries starts afresh. */
  lemma {:induction false} TenTries(s: State, passes: seq<Pass>, n: nat, days: nat, zone: int)
    requires TriedAgain(s, n) && n + |passes| <= 10
    requires n < 10 && forall i :: 0 <= i < |passes| ==> InVain(s, passes[i], zone)
    ensures var t := Passes(s, passes, days, zone);
      && t.count == s.count && !t.flags.updated
      && (if n + |passes| < 10 then TriedAgain(t, n + |passes|) else !Active(t) && t.tries == Tries(UNSET, 0))
    decreases |passes|
  {
    if passes == [] {
    } else {
      OneMoreTry(s, passes[0], n, days, zone);
      var t, rest := NextPass(s, passes[0], days, zone), passes[1..];
      if n + 1 < 10 {
        forall i | 0 <= i < |rest| ensures InVain(t, rest[i], zone) {
          assert rest[i] == passes[i + 1];
        }
        TenTries(t, rest, n + 1, days, zone);
      }
    }
  }

  // ----- trying for ever -----

  // a pass on a connected network, both transfers failing, with no data on disk less than a day old
  predicate Fruitless(s: State, p: Pass, zone: int) {
    && p.outside.network.up && p.outside.network.active
    && p.first.TransferFailed? && p.second.TransferFailed? && Hopeless(s, p.outside, zone)
  }

  predicate AllFruitless(s: State, passes: seq<Pass>, zone: int) {
    forall i :: 0 <= i < |passes| ==> Fruitless(s, passes[i], zone)
  }

  lemma {:induction false} FruitlessPass(s: State, p: Pass, days: nat, zone: int)
    requires Active(s) && Fruitless(s, p, zone)
    ensures var t := NextPass(s, p, days, zone); Active(t) && t.files.merged in {s.files.merged, None}
  {
  }

  /** With data a day old or none at all, as on a device that has never had any, failing transfers are retried for
      ever: the retry counter is reset, and the thread starts again with the first piece. */
  lemma {:induction false} RetryNeverEnds(s: State, passes: seq<Pass>, days: nat, zone: int)
    requires Active(s) && AllFruitless(s, passes, zone)
    ensures Active(Passes(s, passes, days, zone))
    decreases |passes|
  {
    if passes == [] {
    } else {
      FruitlessPass(s, passes[0], days, zone);
      var t := NextPass(s, passes[0], days, zone);
      forall i | 0 <= i < |passes[1..]| ensures Fruitless(t, passes[1..][i], zone) {
        assert passes[1..][i] == passes[i + 1];
      }
      RetryNeverEnds(t, passes[1..], days, zone);
    }
  }

  // the download ends within the budget, whatever the outcomes of good passes at this clock
  ghost predicate Bounded(s: State, days: nat, zone: int, x: Outside)
    requires Usual(s, days)
  {
    forall passes :: |passes| >= Budget(s, days, zone, x) && AllGood(s, passes, days, zone, x) ==>
      !Active(Passes(s, passes, days, zone))
  }

  lemma {:induction false} FailingPassesAreGood(s: State, p: Pass, n: nat, days: nat, zone: int, x: Outside)
    requires Fruitless(s, p, zone) && p.outside.wifiDays >= 1
    requires p.outside.clock == x.clock && p.outside.daemon == x.daemon
    ensures AllGood(s, seq(n, _ => p), days, zone, x)
    decreases n
  {
    if n == 0 || !Active(s) {
    } else {
      FruitlessPass(s, p, days, zone);
      FailingPassesAreGood(NextPass(s, p, days, zone), p, n - 1, days, zone, x);
      assert seq(n, _ => p)[1..] == seq(n - 1, _ => p);
    }
  }

  /** A download that is not over ends within the budget of passes exactly if the data on disk, or the daemon's data
      behind it, are less than a day old. */
  lemma {:induction false} BoundedUnlessHopeless(s: State, days: nat, zone: int, x: Outside)
    requires Usual(s, days) && PlausibleZone(zone) && Active(s)
    ensures Bounded(s, days, zone, x) <==> !Hopeless(s, x, zone)
  {
    if Hopeless(s, x, zone) {
      var p := Pass(TransferFailed, TransferFailed, x.(network := Network(true, true, true), wifiDays := 1));
      var passes := seq(Budget(s, days, zone, x), _ => p);
      FailingPassesAreGood(s, p, |passes|, days, zone, x);
      RetryNeverEnds(s, passes, days, zone);
      assert !Bounded(s, days, zone, x);
    } else {
      forall passes | |passes| >= Budget(s, days, zone, x) && AllGood(s, passes, days, zone, x)
        ensures !Active(Passes(s, passes, days, zone))
      {
        RetryEnds(s, passes, days, zone, x);
      }
    }
  }
}
