/** What the bytes of downloaded pieces say: hours since the start of GPS time. The gap check, the age of the data and
    whole downloads in these hours. */
module EpoHours {
  import opened Bytes
  import opened Options
  import opened EpoDownload

  // a record starts with its hour, lowest byte first; the fourth byte says something else
  predicate HourAt(p: seq<Byte>, at: nat, h: nat) {
    && at + 4 <= |p| && h < 0x100_0000
    && p[at] as int == h % 0x100 && p[at + 1] as int == h / 0x100 % 0x100 && p[at + 2] as int == h / 0x1_0000
  }

  // the hours of the first and the last record of a piece; a record has 72 bytes and covers six hours
  datatype Span = Span(first: nat, last: nat)

  predicate Printed(p: seq<Byte>, h: Span) {
    |p| >= 72 && HourAt(p, 0, h.first) && HourAt(p, |p| - 72, h.last)
  }

  // the 32-bit count of seconds does not wrap within the record
  predicate BelowWrap(h: Span) {
    h.first + 6 <= 1193046 && h.last + 6 <= 1193046
  }

  lemma {:induction false} BytesOfHour(h: nat)
    requires h < 0x100_0000
    ensures h % 0x100 + 0x100 * (h / 0x100 % 0x100) + 0x1_0000 * (h / 0x1_0000) == h
  {
    assert h / 0x1_0000 == h / 0x100 / 0x100;
  }

  /** Whatever else a piece holds, it starts and ends when the hours of its records say, in 32-bit seconds. */
  lemma {:induction false} PieceTimes(p: seq<Byte>, h: Span)
    requires Printed(p, h)
    ensures StartSeconds(p) == 3600 * h.first % 0x1_0000_0000
    ensures EndSeconds(p) == 3600 * (h.last + 6) % 0x1_0000_0000
  {
    BytesOfHour(h.first);
    BytesOfHour(h.last);
    Wraps(3600 * h.last);
  }

  lemma {:induction false} Wraps(n: nat)
    ensures (n % 0x1_0000_0000 + 21600) % 0x1_0000_0000 == (n + 21600) % 0x1_0000_0000
  {
  }

  lemma {:induction false} PieceTimesBelowWrap(p: seq<Byte>, h: Span)
    requires Printed(p, h) && BelowWrap(h)
    ensures StartSeconds(p) == 3600 * h.first && EndSeconds(p) == 3600 * (h.last + 6)
  {
    PieceTimes(p, h);
    NoWrap(3600 * h.first);
    NoWrap(3600 * (h.last + 6));
  }

  lemma {:induction false} NoWrap(n: nat)
    requires n < 0x1_0000_0000
    ensures n % 0x1_0000_0000 == n
  {
  }

  // ----- the age of the data -----

  // the start of GPS time as a time_t
  const GPS_EPOCH := 315964800

  // the time_t of an hour of GPS time in a zone
  function TimeOfHour(h: int, zone: int): int {
    GPS_EPOCH + 3600 * h - zone
  }

  /** The data on disk, or the daemon's data if there are none, are a day old from 24 hours after their first hour on,
      and run out on Wi-Fi after as many days as the setting says; without any data they have always been. */
  lemma {:induction false} AgeInHours(p: seq<Byte>, h: Span, daemon: Option<seq<Byte>>, x: Outside, zone: int)
    requires Printed(p, h) && BelowWrap(h)
    ensures var onDisk := x.(daemon := daemon);
      && FirstTime(Some(p), daemon, zone) == TimeOfHour(h.first, zone)
      && (Stale(Some(p), onDisk, zone) <==> x.clock >= TimeOfHour(h.first + 24, zone))
      && (WifiExpired(Some(p), onDisk, zone) <==> x.clock >= TimeOfHour(h.first + 24 * x.wifiDays, zone))
    ensures var daemons := x.(daemon := Some(p));
      && FirstTime(None, Some(p), zone) == TimeOfHour(h.first, zone)
      && (Stale(None, daemons, zone) <==> x.clock >= TimeOfHour(h.first + 24, zone))
    ensures Stale(None, x.(daemon := None), zone) <==> x.clock >= 24 * 3600
  {
    PieceTimesBelowWrap(p, h);
  }

  /** On Wi-Fi a download is asked for exactly if none is under way or failed and the data have run out. */
  lemma {:induction false} WifiAsksInHours(s: State, p: seq<Byte>, h: Span, x: Outside, zone: int)
    requires s.files.merged == Some(p) && Printed(p, h) && BelowWrap(h)
    ensures var asks := && !s.flags.updated && !s.flags.failed && x.network.up && x.network.wifi
                        && x.clock >= TimeOfHour(h.first + 24 * x.wifiDays, zone);
      WifiBlock(s, x, zone)
        == if asks then State(Files(None, s.files.pieces), 0, Flags(true, false, s.flags.retry), s.tries) else s
  {
    AgeInHours(p, h, x.daemon, x, zone);
    assert x.(daemon := x.daemon) == x;
  }

  // ----- the gap between two pieces -----

  /** A piece behind another one is rejected exactly if at least 24 hours lie between them. */
  lemma {:induction false} GapInHours(s: State, p: seq<Byte>, was: Span, h: Span, zone: int)
    requires s.count > 0 && s.count - 1 in s.files.pieces && Printed(s.files.pieces[s.count - 1], was)
    requires Printed(p, h) && BelowWrap(was) && BelowWrap(h)
    ensures var t := Append(Land(s, s.count, Fetched(p)), s.count);
      && (Rejected(t, s.count, zone) <==> h.first >= was.last + 6 + 24)
      && (Rejected(t, s.count, zone) ==> Changed(t, s.count, zone) && !Unusable(t, s.count))
  {
    PieceTimesBelowWrap(s.files.pieces[s.count - 1], was);
    PieceTimesBelowWrap(p, h);
  }

  // ----- downloads -----

  /** The pieces wanted: days by threes, rounded up, at least one and at most ten. */
  lemma {:induction false} WantedIs(days: nat)
    ensures days == 0 ==> Wanted(days) == 1
    ensures 1 <= days <= 30 ==> 3 * (Wanted(days) - 1) < days <= 3 * Wanted(days)
    ensures days > 30 ==> Wanted(days) == 10
  {
  }

  function Updates(s: State, ps: seq<seq<Byte>>, days: nat, zone: int): State {
    if ps == [] then s else FileUpdate(Updates(s, ps[..|ps| - 1], days, zone), Fetched(ps[|ps| - 1]), days, zone)
  }

  function Flat(ps: seq<seq<Byte>>): seq<Byte> {
    if ps == [] then [] else Flat(ps[..|ps| - 1]) + ps[|ps| - 1]
  }

  predicate AllPrinted(ps: seq<seq<Byte>>, hs: seq<Span>) {
    |ps| == |hs| && forall i :: 0 <= i < |ps| ==> Printed(ps[i], hs[i]) && BelowWrap(hs[i])
  }

  // each piece starts less than a day after the end of the one before
  predicate Consecutive(hs: seq<Span>) {
    forall i, j :: 0 <= i < |hs| && j == i + 1 < |hs| ==> hs[j].first < hs[i].last + 6 + 24
  }

  // the files of a download behind n pieces
  ghost predicate Downloaded(s: State, t: State, ps: seq<seq<Byte>>) {
    && t.count == |ps| && t.flags == s.flags && t.tries == s.tries
    && (ps != [] ==> t.files.merged == Some(Flat(ps)))
    && (forall i :: i in t.files.pieces <==> i in s.files.pieces || 0 <= i < |ps|)
    && (forall i :: i in t.files.pieces ==> t.files.pieces[i] == if i < |ps| then ps[i] else s.files.pieces[i])
  }

  // in front of the last increment: all the pieces are accepted
  ghost predicate Accepted(s: State, u: State, ps: seq<seq<Byte>>) {
    && ps != [] && u.count == |ps| - 1 && u.flags == s.flags && u.tries == s.tries
    && u.files.merged == Some(Flat(ps))
    && (forall i :: i in u.files.pieces <==> i in s.files.pieces || 0 <= i < |ps|)
    && (forall i :: i in u.files.pieces ==> u.files.pieces[i] == if i < |ps| then ps[i] else s.files.pieces[i])
  }

  lemma {:induction false} NotRejected(s: State, t: State, ps: seq<seq<Byte>>, hs: seq<Span>, zone: int)
    requires ps != [] && AllPrinted(ps, hs) && Consecutive(hs) && Downloaded(s, t, ps[..|ps| - 1])
    ensures !Rejected(Append(Land(t, t.count, Fetched(ps[|ps| - 1])), t.count), t.count, zone)
  {
    var n := |ps| - 1;
    if n > 0 {
      assert ps[..n][n - 1] == ps[n - 1];
      GapInHours(t, ps[n], hs[n - 1], hs[n], zone);
    }
  }

  lemma {:induction false} LastAppended(s: State, t: State, ps: seq<seq<Byte>>)
    requires ps != [] && Downloaded(s, t, ps[..|ps| - 1])
    ensures Accepted(s, Append(Land(t, t.count, Fetched(ps[|ps| - 1])), t.count), ps)
  {
    var n, p := |ps| - 1, ps[|ps| - 1];
    var u := Append(Land(t, t.count, Fetched(p)), t.count);
    assert u.files.pieces == t.files.pieces[n := p];
    if n == 0 {
      assert Flat(ps[..0]) == [] && [] + p == p;
    }
    forall i | i in u.files.pieces
      ensures u.files.pieces[i] == if i < |ps| then ps[i] else s.files.pieces[i]
    {
      if i < n {
        assert ps[..n][i] == ps[i];
      }
    }
  }

  lemma {:induction false} NextAccepted(s: State, t: State, ps: seq<seq<Byte>>, hs: seq<Span>, days: nat, zone: int)
    requires ps != [] && AllPrinted(ps, hs) && Consecutive(hs) && Downloaded(s, t, ps[..|ps| - 1])
    ensures var u := Append(Land(t, t.count, Fetched(ps[|ps| - 1])), t.count);
      Accepted(s, u, ps) && FileUpdate(t, Fetched(ps[|ps| - 1]), days, zone) == Advance(u, days)
  {
    NotRejected(s, t, ps, hs, zone);
    LastAppended(s, t, ps);
  }

  lemma {:induction false} Increment(s: State, u: State, ps: seq<seq<Byte>>, days: nat)
    requires Accepted(s, u, ps) && MoreToFetch(|ps|, days)
    ensures Downloaded(s, Advance(u, days), ps)
  {
  }

  /** Pieces less than a day apart are all accepted, one after the other, and merged in this order. */
  lemma {:induction false} ConsecutiveAccepted(s: State, ps: seq<seq<Byte>>, hs: seq<Span>, days: nat, zone: int)
    requires s.count == 0 && AllPrinted(ps, hs) && Consecutive(hs) && |ps| < Wanted(days)
    ensures Downloaded(s, Updates(s, ps, days, zone), ps)
    decreases |ps|, 1
  {
    if ps == [] {
    } else {
      var u := UpToLast(s, ps, hs, days, zone);
      Increment(s, u, ps, days);
    }
  }

  lemma {:induction false} UpToLast(s: State, ps: seq<seq<Byte>>, hs: seq<Span>, days: nat, zone: int)
    returns (u: State)
    requires s.count == 0 && AllPrinted(ps, hs) && Consecutive(hs) && 0 < |ps| <= Wanted(days)
    ensures Accepted(s, u, ps) && Updates(s, ps, days, zone) == Advance(u, days)
    decreases |ps|, 0
  {
    var n := |ps| - 1;
    ConsecutiveAccepted(s, ps[..n], hs[..n], days, zone);
    var t := Updates(s, ps[..n], days, zone);
    u := Append(Land(t, t.count, Fetched(ps[n])), t.count);
    NextAccepted(s, t, ps, hs, days, zone);
  }

  /** With the last wanted piece the download is over: the merged file is all of them in order, and the piece files of
      the wanted days are gone, no others. */
  lemma {:induction false} DownloadCompletes(s: State, ps: seq<seq<Byte>>, hs: seq<Span>, days: nat, zone: int)
    requires s.count == 0 && AllPrinted(ps, hs) && Consecutive(hs) && |ps| == Wanted(days)
    ensures var t := Updates(s, ps, days, zone);
      && t.files.merged == Some(Flat(ps)) && t.count == 0 && !t.flags.updated && !t.flags.failed
      && (forall i :: i in t.files.pieces <==> 3 * i >= days && (i in s.files.pieces || 0 <= i < |ps|))
  {
    var u := UpToLast(s, ps, hs, days, zone);
    Completion(u, days);
  }

  lemma {:induction false} Completion(u: State, days: nat)
    requires u.count + 1 == Wanted(days)
    ensures var t := Advance(u, days);
      && t.files.merged == u.files.merged && t.count == 0 && !t.flags.updated && !t.flags.failed
      && (forall i :: i in t.files.pieces <==> 3 * i >= days && i in u.files.pieces)
  {
    forall i: nat ensures i >= PiecesFor(days) <==> 3 * i >= days {
    }
  }

  /** A day or more between two pieces resets the download: merged file and piece files so far are gone. */
  lemma {:induction false} GapResets(s: State, ps: seq<seq<Byte>>, hs: seq<Span>, p: seq<Byte>, h: Span, days: nat,
                                     zone: int)
    requires s.count == 0 && AllPrinted(ps, hs) && Consecutive(hs) && 0 < |ps| < Wanted(days)
    requires Printed(p, h) && BelowWrap(h) && h.first >= hs[|hs| - 1].last + 6 + 24
    ensures var t := FileUpdate(Updates(s, ps, days, zone), Fetched(p), days, zone);
      && t.files.merged == None && t.count == 0 && t.flags == s.flags
      && (forall i :: i in t.files.pieces <==> i in s.files.pieces && i > |ps|)
  {
    ConsecutiveAccepted(s, ps, hs, days, zone);
    GapInHours(Updates(s, ps, days, zone), p, hs[|hs| - 1], h, zone);
  }

  /** A failed transfer removes the file of its piece and no other, and leaves the merged file as it was. */
  lemma {:induction false} FailedTransferLeaves(s: State, o: Outcome, days: nat, zone: int)
    requires !o.Fetched?
    ensures var t := FileUpdate(s, o, days, zone);
      && t.files.merged == s.files.merged && t.count == s.count && t.flags.failed
      && (forall i :: i in t.files.pieces <==> i in s.files.pieces && (i != s.count || o == NoUrl))
      && (forall i :: i in t.files.pieces ==> t.files.pieces[i] == s.files.pieces[i])
  {
  }
}
