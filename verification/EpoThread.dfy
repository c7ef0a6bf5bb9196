/** The download thread over the HAL's variables and files, updated in place. */
module EpoThread {
  import opened Bytes
  import opened Options
  import opened EpoDownload
  import opened EpoRetry
  import GpsCalendar

  class Downloader {
    var merged: Option<seq<Byte>>          // EPOHAL.DAT
    var pieces: map<nat, seq<Byte>>        // the piece files
    var count: nat                         // gps_epo_file_count
    var updated: bool
    var failed: bool
    var retry: bool
    var fileRetrying: nat
    var retryTime: nat

    ghost function View(): State
      reads this
    {
      State(Files(merged, pieces), count, Flags(updated, failed, retry), Tries(fileRetrying, retryTime))
    }

    constructor (merged: Option<seq<Byte>>, pieces: map<nat, seq<Byte>>)
      ensures View() == Init(Files(merged, pieces))
    {
      this.merged, this.pieces, count := merged, pieces, 0;
      updated, failed, retry := false, false, true;
      fileRetrying, retryTime := UNSET, 0;
    }

    // the copy loop: 256 bytes at a time, onto the end of the merged file
    method AppendPiece(piece: seq<Byte>)
      modifies this`merged
      ensures merged == Some((if old(merged).Some? then old(merged).value else []) + piece)
    {
      if merged.None? {
        merged := Some([]);
      }
      ghost var before := merged.value;
      var at := 0;
      assert before + piece[..at] == before;
      while at < |piece|
        invariant 0 <= at <= |piece|
        invariant merged.Some? && merged.value == before + piece[..at]
      {
        var bytesIn := if |piece| - at < 256 then |piece| - at else 256;
        assert piece[..at + bytesIn] == piece[..at] + piece[at..at + bytesIn];
        merged := Some(merged.value + piece[at..at + bytesIn]);
        at := at + bytesIn;
      }
      assert piece[..at] == piece;
    }

    // the transfer of the piece whose file name was chosen, and the flag its caller sets if it fails
    method CurlEasyDownloadEpo(name: nat, o: Outcome)
      modifies this`merged, this`pieces, this`failed
      ensures View() == if o.Fetched? then Append(Land(old(View()), name, o), name) else Land(old(View()), name, o)
    {
      match o {
        case NoUrl => failed := true;
        case TransferFailed =>
          pieces := pieces - {name};
          failed := true;
        case Fetched(p) =>
          pieces := pieces[name := p];
          if count == 0 {
            merged := None;
          }
          AppendPiece(p);
          assert [] + p == p;
      }
    }

    // unlinks piece files 0..n-1
    method UnlinkBelow(n: nat)
      modifies this`pieces
      ensures pieces == From(old(pieces), n)
    {
      for i := 0 to n
        invariant pieces == From(old(pieces), i)
      {
        pieces := pieces - {i};
      }
    }

    method ServerDataIsChanged(name: nat, zone: int) returns (ret: bool)
      modifies this
      ensures View() == Check(old(View()), name, zone) && ret == Rejected(old(View()), name, zone)
    {
      var start, end := 0, 0;
      ret := false;
      var civil;
      if name in pieces {
        if |pieces[name]| >= RECORD {
          civil, start := GpsCalendar.TimeOfGpsSeconds(StartSeconds(pieces[name]), zone);
        } else {
          failed, ret := true, true;
        }
      }
      if count > 0 {
        if count - 1 in pieces {
          if |pieces[count - 1]| >= RECORD {
            civil, end := GpsCalendar.TimeOfGpsSeconds(EndSeconds(pieces[count - 1]), zone);
          } else {
            failed, ret := true, true;
          }
        }
      } else {
        end := start;
      }
      if start - end >= DAY {
        UnlinkBelow(count + 1);
        merged, count, ret := None, 0, true;
      }
    }

    method EpoFileUpdate(o: Outcome, days: nat, zone: int)
      modifies this
      ensures View() == FileUpdate(old(View()), o, days, zone)
    {
      var name := count;
      CurlEasyDownloadEpo(name, o);
      if !o.Fetched? {
        return;
      }
      var isChanged := ServerDataIsChanged(name, zone);
      if isChanged {
        return;
      }
      PieceAccepted(days);
    }

    // the end of an update: on to the next piece, or done
    method PieceAccepted(days: nat)
      modifies this
      ensures View() == Advance(old(View()), days)
    {
      count := count + 1;
      var wanted := days / 3;
      if days % 3 > 0 {
        wanted := wanted + 1;
      }
      if count < MAX_PIECES && count < wanted {
        return;
      }
      UnlinkBelow(wanted);
      updated, count := false, 0;
      if failed {
        failed := false;
      }
    }

    // the start time in mtk_gps_epo_file_time_hal; what it cannot read stays 0
    method EpoFileTimeHal(daemon: Option<seq<Byte>>, zone: int) returns (start: int)
      ensures start == FirstTime(merged, daemon, zone)
    {
      start := 0;
      if merged.None? && daemon.None? {
        return;
      }
      var file := if merged.Some? then merged.value else daemon.value;
      if |file| >= RECORD {
        var civil;
        civil, start := GpsCalendar.TimeOfGpsSeconds(StartSeconds(file), zone);
      }
    }

    method ResumeDownload(o: Outcome, x: Outside, days: nat, zone: int)
      requires ResumeDue(View(), x)
      modifies this
      ensures View() == ResumeBlock(old(View()), Pass(o, o, x), days, zone)
    {
      if fileRetrying == UNSET {
        fileRetrying := count;
      }
      var before := count;
      var start := EpoFileTimeHal(x.daemon, zone);
      if x.clock >= start + 24 * 60 * 60 {
        failed, count, updated, merged := false, 0, true, None;
      } else {
        EpoFileUpdate(o, days, zone);
      }
      if before == count {
        if fileRetrying == count {
          retryTime := retryTime + 1;
        } else {
          fileRetrying, retryTime := count, 0;
        }
        if retryTime < MAX_RETRIES {
          retry := false;
        } else {
          failed, retryTime, fileRetrying := false, 0, UNSET;
        }
      }
    }

    method EpoThreadPass(p: Pass, days: nat, zone: int)
      modifies this
      ensures View() == ThreadPass(old(View()), p, days, zone)
    {
      if updated {
        failed := false;
        EpoFileUpdate(p.first, days, zone);
        if failed {
          updated := false;
        }
      }
      if p.outside.network.active && p.outside.network.up && failed && retry {
        ResumeDownload(p.second, p.outside, days, zone);
      }
      if !updated && !failed && p.outside.network.up && p.outside.network.wifi {
        var start := EpoFileTimeHal(p.outside.daemon, zone);
        if p.outside.clock >= start + p.outside.wifiDays * 24 * 60 * 60 {
          updated, count, merged := true, 0, None;
        }
      }
    }
  }
}
