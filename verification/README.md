# Verified model of the device tree's stateful code

This project models the hand-written logic of an MT6735 device tree that carries state, loops and arithmetic, and
proves properties of it with Dafny 4.11. `dafny verify dfyconfig.toml` checks everything.

| file | what it models |
|---|---|
| `Session.dfy` | the GPS HAL's start/stop/cleanup protocol between the framework thread and the HAL thread, as interleaved atomic statements |
| `EpoDownload.dfy`, `EpoHours.dfy`, `EpoRuns.dfy`, `EpoRetry.dfy`, `EpoThread.dfy` | the download of orbit predictions (EPO): pieces appended to one merged file step by step; the hours their bytes spell; whole runs, with requests and the daemon's reports falling anywhere; how often a failed download is retried; the thread's code |
| `GpsCalendar.dfy` | GPS week and time of week to civil time (IS-GPS-200 section 3.3.4, ISO 8601:2004 section 3.2.1) |
| `WireCodec.dfy`, `TextEncoding.dfy` | the message fields exchanged with the GPS daemon; the UCS-2 and hexadecimal encoders |
| `NmeaFraming.dfy`, `NmeaTokens.dfy`, `SatelliteView.dfy`, `NmeaPipeline.dfy`, `NmeaText.dfy`, `NmeaFlags.dfy`, `NmeaLoop.dfy` | the NMEA 0183 pipeline: byte-by-byte framing, tokenizer and integer reader, gathering of satellites in view, all of them together from bytes to reports; satellites printed as sentences, read back, reported and flagged; the reading loop |
| `EccList.dfy`, `EccNetwork.dfy` | the emergency number list (3GPP TS 22.101 section 10.1.1): property rewriter, lookup, merged numbers, categories |
| `TalkerView.dfy` | the satellite display's sentence parser with per-talker lists |
| `Fingerprint.dfy` | enrolment sessions over five template slots: the statements of an enrolment call and of a press of the finger, interleaved |
| `DataCalls.dfy` | the data-call slot table |
| `ReportScheduler.dfy` | the usage-report scheduler |
| `Bytes.dfy`, `Options.dfy`, `CommaText.dfy`, `JavaText.dfy` | shared types, comma-separated text, Java's `split` and integer parsing |

Code that updates variables, buffers or preferences is a class or a method with loops, proved equal to a function on
values (`View()` gives the abstract value of an object); the properties of whole runs are lemmas about those functions.

Where a promised property does not hold of the code, the model keeps the code and states exactly when it holds:

* a line of exactly 128 bytes swallows its successor (`NmeaFraming.Kept`), and under a report interval of several
  seconds every wake-up but one in that many costs a batch of bytes (`NmeaLoop.EveryPeriodthWakeReads`);
* a piece shorter than one record behind accepted pieces spoils the merged file (`EpoDownload.UpdateKeepsMerged`);
* a download request that falls into an update breaks it unless it comes before the append of the first piece, or of
  one equal to it, or the piece is rejected; with a single piece wanted the download is then declared done without a
  file. A report of the daemon breaks it behind the append of the first piece, unless the last update failed
  (`EpoRuns.RequestDuringUpdate` for one update, `EpoRuns.RunKeepsMerged` for whole runs,
  `EpoRuns.RequestLosesDownload`, `EpoRuns.ReportLosesPiece`);
* a failing download is retried for ever if neither the merged file nor the daemon's file is less than a day old, as on
  a device that has never had such data (`EpoRetry.RetryNeverEnds`, `EpoRetry.BoundedUnlessHopeless`);
* a repeated final GSV message can take the satellite count past the list (`SatelliteView.CountLeavesListOnlyIf`);
* refreshing the SIM properties loses the numbers "" and "+" if a property has an empty piece
  (`EccList.RefreshLosesNothing`), widens the list if both properties hold nothing but commas
  (`EccList.RefreshGrowsByNoSim`), and is not idempotent there nor, in the order of the numbers, from an empty
  property (`EccList.SecondRefresh`);
* an enrolment call that overlaps a completing press can leave a template without a token, put a token to a slot
  without a template, or let a later template overwrite an enrolled one (`Fingerprint.FinishedUnlessDisturbed`,
  `Fingerprint.IntrusionMisplacesToken`, `Fingerprint.LateClearingOverwrites`);
* a deactivation in a lower slot between set-up and reply makes the interface id miss its slot (`DataCalls.IdNamesSlot`);
* the display's parser takes fields 3 to 14 of a GSA sentence for satellite numbers by its comment, but the loop begins
  with field 2, so that satellite 2 or 3 counts as used whenever there is a fix (`TalkerView.GsaListsItsSatellites`);
* a first boot is meant to leave the user the report interval for opting out, but a version never reported is uploaded
  at the next connectivity event (`ReportScheduler.GraceOnlyForKnownVersion`);
* the UCS-2 encoder's comment promises a terminator at the returned length, but both zeros are written one place behind
  (`TextEncoding.AscStrToUsc2Str`).

## Model

| member | source | states |
|---|---|---|
| Session.StatusesAlternate | gps/hal/gps_mtk_aosp.c:4339-4357 | in every interleaving of both threads the status callbacks are a prefix of ENGINE_ON, SESSION_BEGIN, SESSION_END, ENGINE_OFF repeated, and the wake lock is held at most once and never over-released |
| Session.NoLostWakeup | gps/hal/gps_mtk_aosp.c:580-613 | whenever start waits on M_START the condition is latched or `flag_unlock` is 0, also after late NMEA from an earlier session |
| Session.NmeaReleasesStart | gps/hal/gps_mtk_aosp.c:3857-3862 | so the next NMEA batch lets a waiting start go on |
| Session.EverySessionHasItsNmea | gps/hal/gps_mtk_aosp.c:580-597 | over every run no more ENGINE_ON are reported than NMEA statements have latched M_START, each latch serving one session, and without such a statement no status at all |
| Session.CleanupClosesBooks | gps/hal/gps_mtk_aosp.c:4189-4211 | when cleanup returns the callbacks form whole cycles, no wake lock is held, no death message is unread and the HAL thread has left |
| Session.StartedFollowsCalls | gps/hal/gps_mtk_aosp.c:3811-3851 | with the control pipe drained, the HAL thread's `started` agrees with the framework's last completed call |
| Session.StepKeepsInv | gps/hal/gps_mtk_aosp.c:3453-3466 | every atomic statement of either thread keeps it |
| Session.EveryStepCounts | gps/hal/gps_mtk_aosp.c:4268-4357 | every statement of either thread lowers the work left until the call in progress returns; only NMEA behind a session's first batch changes nothing |
| Session.HelpfulStepHelps | gps/hal/gps_mtk_aosp.c:4281-4285 | while a call is in progress some thread can execute a statement that counts: no deadlock |
| Session.EveryScheduleReturns | gps/hal/gps_mtk_aosp.c:4477-4503 | whatever the schedule, no more statements than the work left are executed, and when none is left the call has returned |
| Session.CallCanReturn | gps/hal/gps_mtk_aosp.c:4489-4493 | from every state that satisfies the invariant the call in progress can return |
| Session.EveryRunCanReturn | gps/hal/gps_mtk_aosp.c:4268-4357 | no reachable state is a deadlock |
| Session.Globals.constructor | gps/hal/gps_mtk_aosp.c:410-430 | the globals start out as the protocol's initial state |
| Session.Globals.MtkGpsInit | gps/hal/gps_mtk_aosp.c:4122-4144 | a new HAL thread and control pipe behind a cleanup; `flag_unlock` and the latched conditions stay as they were, and all results hold on |
| Session.Globals.MtkGpsStartConnect | gps/hal/gps_mtk_aosp.c:4281-4339 | one statement of start, up to the wait on M_START, is one protocol step |
| Session.Globals.MtkGpsStartAnnounce | gps/hal/gps_mtk_aosp.c:4341-4356 | one statement of start behind the wait is one protocol step |
| Session.Globals.MtkGpsStop | gps/hal/gps_mtk_aosp.c:4477-4503 | one statement of stop is one protocol step |
| Session.Globals.MtkGpsCleanup | gps/hal/gps_mtk_aosp.c:4189-4211 | one statement of cleanup is one protocol step |
| Session.Globals.PickUp | gps/hal/gps_mtk_aosp.c:3857-3862 | the HAL thread's choice of an event, and the control commands, are one protocol step |
| Session.Globals.HandleEvent | gps/hal/gps_mtk_aosp.c:3453-3466 | one statement of the first-NMEA, MNL_DIE or quit handling is one protocol step |
| EpoDownload.UpdateKeepsMerged | gps/hal/gps_mtk_aosp.c:5583-5631 | one update keeps "merged file = accepted pieces in order, less than a day apart" exactly if it does not append a non-empty piece shorter than a record behind accepted ones |
| EpoDownload.AcceptedPieceExtends | gps/hal/gps_mtk_aosp.c:5320-5353 | an appended piece that is not rejected makes the merged file exactly one piece longer and follows its predecessor within a day |
| EpoDownload.ChangedMeansGap | gps/hal/gps_mtk_aosp.c:5565-5579 | the comparison of converted clock times is a comparison of GPS seconds: reset exactly if the new piece starts a day or more after the last one ends |
| EpoHours.PieceTimes | gps/hal/gps_mtk_aosp.c:5460-5494 | whatever else a piece holds, it starts at 3600 times the little-endian 24-bit hour of its first 72-byte record and ends six hours after that of its last one, modulo 2^32 |
| EpoHours.AgeInHours | gps/hal/gps_mtk_aosp.c:4694-4699 | data are a day old from 24 hours after their first hour on, the merged file before the daemon's, and always if there are none; on Wi-Fi they run out after the setting's days |
| EpoHours.WifiAsksInHours | gps/hal/gps_mtk_aosp.c:4734-4744 | on Wi-Fi a download is asked for exactly if none is under way or failed and the data have run out, by their hours |
| EpoHours.GapInHours | gps/hal/gps_mtk_aosp.c:5565-5579 | a piece is rejected exactly if at least 24 hours lie between it and the one before |
| EpoHours.WantedIs | gps/hal/gps_mtk_aosp.c:5603-5609 | the pieces wanted: days by threes, rounded up, at least one, at most ten |
| EpoHours.ConsecutiveAccepted | gps/hal/gps_mtk_aosp.c:5583-5612 | pieces whose hours are less than a day apart are all accepted by a run of updates and merged in order |
| EpoHours.DownloadCompletes | gps/hal/gps_mtk_aosp.c:5614-5631 | with the last wanted one the merged file is all of them, the download is over, and exactly the piece files of the wanted days are gone |
| EpoHours.GapResets | gps/hal/gps_mtk_aosp.c:5566-5579 | a day or more between two pieces resets the download: merged file and piece files so far are gone, no others |
| EpoHours.FailedTransferLeaves | gps/hal/gps_mtk_aosp.c:5360-5363 | a failed transfer removes the file of its piece and no other |
| EpoRuns.StepKeepsInv | gps/hal/gps_mtk_aosp.c:4654-4757 | every step of the thread and every event of the other threads, at each place inside an update, keeps the promise about the merged file exactly if it is none of the harmful steps |
| EpoRuns.RunKeepsMerged | gps/hal/gps_mtk_aosp.c:4654-4757 | over every interleaving of thread steps, requests, daemon reports and alarms: the merged file is the counted pieces in order throughout, and the wanted pieces whenever a download is declared done, if and only if no step rejects a spoilt append, counts a piece whose file was unlinked behind its append, or counts as the first a piece that is not |
| EpoRuns.RunKeepsCount | gps/hal/gps_mtk_aosp.c:5602-5612 | under a constant day setting the piece count stays below max(1, ceil(days/3)), and below ten, whatever requests fall in between |
| EpoRuns.CompletedFileHoldsAll | gps/hal/gps_mtk_aosp.c:5614-5631 | whenever a run free of harmful steps so far completes, in either block, the merged file holds exactly max(1, ceil(days/3)) pieces (ten at most), in order and without gaps, if and only if the completing step is not harmful; count and flags are cleared either way |
| EpoRuns.RequestDuringUpdate | gps/hal/gps_mtk_aosp.c:5318-5353 | any requests, daemon reports and alarms in the transfer, in front of the append, of the check and of the increment: the exact condition under which the update leaves counted pieces and file in agreement, completed downloads included |
| EpoRuns.RequestLosesDownload | gps/hal/gps_mtk_aosp.c:5614-5631 | on a new device with one piece wanted, a request in front of the increment ends the download as done, without a file and with the request forgotten |
| EpoRuns.ReportLosesPiece | gps/hal/gps_mtk_aosp.c:3428-3435 | a daemon report behind the first append leaves one counted piece and no merged file |
| EpoRetry.PassIsRun | gps/hal/gps_mtk_aosp.c:4654-4757 | a pass with nothing in between is a run of the thread's steps from the top of its loop to the top |
| EpoRetry.PassAdvances | gps/hal/gps_mtk_aosp.c:4677-4746 | every good pass behind a retry alarm, on Wi-Fi with the trigger enabled or not, finishes the download, gives it up, or leaves fewer passes to go, unless all data are a day old |
| EpoRetry.RetryEnds | gps/hal/gps_mtk_aosp.c:4677-4731 | then the download is finished or given up within the budget of passes |
| EpoRetry.TenTries | gps/hal/gps_mtk_aosp.c:4710-4729 | a piece whose transfer goes on failing while the data are less than a day old is tried again exactly ten times, each behind an alarm, and then given up |
| EpoRetry.RetryNeverEnds | gps/hal/gps_mtk_aosp.c:4699-4704 | with data a day old or none at all, failing transfers never end the download, over any number of passes, on Wi-Fi or not |
| EpoRetry.BoundedUnlessHopeless | gps/hal/gps_mtk_aosp.c:5144-5150 | the number of passes is bounded exactly if the data on disk, or the daemon's behind them, are less than a day old |
| EpoRetry.BudgetBound | gps/hal/gps_mtk_aosp.c:4718-4729 | the budget is at most 265 passes for every day setting, starting again once included |
| EpoThread.Downloader.constructor | gps/hal/gps_mtk_aosp.c:4654-4676 | the download thread's variables start unset |
| EpoThread.Downloader.AppendPiece | gps/hal/gps_mtk_aosp.c:5331-5353 | the 256-byte copy loop appends the whole piece and nothing else |
| EpoThread.Downloader.CurlEasyDownloadEpo | gps/hal/gps_mtk_aosp.c:5318-5364 | the effect of one transfer on merged file and piece file, for a missing URL, a failure and a success |
| EpoThread.Downloader.UnlinkBelow | gps/hal/gps_mtk_aosp.c:5619-5626 | the unlink loop removes exactly the piece files below the bound |
| EpoThread.Downloader.ServerDataIsChanged | gps/hal/gps_mtk_aosp.c:5505-5581 | the answer and the reset, with both short-file branches |
| EpoThread.Downloader.EpoFileUpdate | gps/hal/gps_mtk_aosp.c:5583-5631 | one update is the update function on values |
| EpoThread.Downloader.PieceAccepted | gps/hal/gps_mtk_aosp.c:5602-5631 | the end of an update: next piece, or completion |
| EpoThread.Downloader.EpoFileTimeHal | gps/hal/gps_mtk_aosp.c:5126-5186 | the start time of the merged file, else of the daemon's, else 0 |
| EpoThread.Downloader.ResumeDownload | gps/hal/gps_mtk_aosp.c:4677-4731 | the resume block, with its test of the data's age and its retry bookkeeping, is the resume function on values |
| EpoThread.Downloader.EpoThreadPass | gps/hal/gps_mtk_aosp.c:4654-4757 | one pass of the thread is the pass function on values |
| GpsCalendar.SecondsOrderCivilTime | gps/hal/gps_mtk_aosp.c:4970-5053 | the second count orders valid dates and times exactly as the calendar does, so later counts are later times, and is injective |
| GpsCalendar.EarlierIsSmaller | gps/hal/gps_mtk_aosp.c:4970-5053 | an earlier civil time has a smaller count |
| GpsCalendar.MonthTable | gps/hal/gps_mtk_aosp.c:4970-5053 | the cumulative day table is the sum of the Gregorian month lengths, leap day included |
| GpsCalendar.LeapOffsetIsLeap | gps/hal/gps_mtk_aosp.c:4970-5053 | the tests on years since 1980 are the Gregorian leap-year rule |
| GpsCalendar.DecideYear | gps/hal/gps_mtk_aosp.c:4970-5053 | the year loop ends with the year and the day within it that the total determines |
| GpsCalendar.DecideMonth | gps/hal/gps_mtk_aosp.c:4970-5053 | the table search gives the month and day that the day of the year determines |
| GpsCalendar.GpsToUtcTime | gps/hal/gps_mtk_aosp.c:4970-5053 | the result is a valid Gregorian date and time whose distance from 1 January 1980 is week and time of week plus five days |
| GpsCalendar.TimeOfGpsSeconds | gps/hal/gps_mtk_aosp.c:5460-5466 | for every second count, split as the EPO code does, it is the unique such civil time, and the `time_t` is linear in the count |
| WireCodec.IntRoundTrip | gps/hal/gps_mtk_aosp.c:758-762 | every 32-bit integer survives its four bytes |
| WireCodec.BytesOnTheWire | gps/hal/gps_mtk_aosp.c:730-733 | the lowest byte comes first, negative numbers in two's complement |
| WireCodec.ShortTextOnTheWire | gps/hal/gps_mtk_aosp.c:735-750 | a text goes out as one more than its length, its characters and a NUL, a binary as length and bytes |
| WireCodec.FieldRoundTrip | gps/hal/gps_mtk_aosp.c:730-784 | every field decodes to itself, whatever bytes follow |
| WireCodec.ListRoundTrip | gps/hal/gps_mtk_aosp.c:730-784 | every list of fields decodes to itself and to its own extent, whatever bytes follow |
| WireCodec.Memcpy | gps/hal/gps_mtk_aosp.c:752-756 | copies the bytes and leaves all others as they were |
| WireCodec.BuffPutInt | gps/hal/gps_mtk_aosp.c:730-733 | writes the four bytes and nothing else, and advances the offset by four |
| WireCodec.BuffPutString | gps/hal/gps_mtk_aosp.c:735-742 | writes the length and the text with its terminator, and nothing else |
| WireCodec.BuffPutBinary | gps/hal/gps_mtk_aosp.c:744-750 | writes the length and the bytes, and nothing else |
| WireCodec.BuffPutStruct | gps/hal/gps_mtk_aosp.c:752-756 | writes the bytes and nothing else |
| WireCodec.BuffGetInt | gps/hal/gps_mtk_aosp.c:758-762 | reads the integer the four bytes hold |
| WireCodec.BuffGetBytes | gps/hal/gps_mtk_aosp.c:777-784 | reads as many bytes as the length in front says |
| WireCodec.BuffGetStruct | gps/hal/gps_mtk_aosp.c:772-775 | reads the given number of bytes |
| WireCodec.PutField | gps/hal/gps_mtk_aosp.c:730-756 | the put call for a field writes that field's encoding |
| WireCodec.GetField | gps/hal/gps_mtk_aosp.c:758-784 | the matching get call reads the field the bytes encode |
| WireCodec.PutFields | gps/hal/gps_mtk_aosp.c:730-756 | consecutive put calls write the concatenated encodings and nothing else |
| WireCodec.GetFields | gps/hal/gps_mtk_aosp.c:758-784 | consecutive get calls read the decoded list and advance by its extent |
| WireCodec.SendAndReceive | gps/hal/gps_mtk_aosp.c:730-784 | any list of fields that fits comes back unchanged with the same final offset, and no byte in front or behind is touched |
| TextEncoding.HexRoundTrip | gps/hal/gps_mtk_aosp.c:831-849 | the hexadecimal text decodes to the bytes and is twice as long |
| TextEncoding.HexAt | gps/hal/gps_mtk_aosp.c:831-849 | the two digits of each byte, high half first, from 0 to 9 and A to F |
| TextEncoding.Ucs2At | gps/hal/gps_mtk_aosp.c:814-829 | each character stands behind a zero byte, behind the mark |
| TextEncoding.Ucs2RoundTrip | gps/hal/gps_mtk_aosp.c:814-829 | stripping the byte order mark and the zero bytes gives the string back |
| TextEncoding.TextRoundTrip | gps/hal/gps_mtk_aosp.c:814-849 | both encoders together: length 4n + 4, and decoding and stripping gives the string back |
| TextEncoding.AscStrToUsc2Str | gps/hal/gps_mtk_aosp.c:814-829 | writes the UCS-2 text in place; the terminating zeros land one place behind the returned length |
| TextEncoding.RawDataToHexString | gps/hal/gps_mtk_aosp.c:831-849 | writes the hexadecimal text in place and nothing behind it |
| NmeaFraming.FramingIsLineSplitting | gps/hal/gps_mtk_aosp.c:2433-2458 | for every stream the parser receives exactly the lines of at most 127 bytes with their newline, in order; a line of 128 bytes also drops its successor |
| NmeaFraming.OneLine | gps/hal/gps_mtk_aosp.c:2441-2446 | one line is passed on whole or dropped, and only one of exactly 128 bytes leaves the reader skipping |
| NmeaFraming.RunAppend | gps/hal/gps_mtk_aosp.c:3918-3926 | how the stream is cut into reads makes no difference |
| NmeaFraming.NmeaReader.constructor | gps/hal/gps_mtk_aosp.c:1499-1520 | a new reader holds nothing and skips nothing |
| NmeaFraming.NmeaReader.AddC | gps/hal/gps_mtk_aosp.c:2433-2458 | one byte changes buffer, position and flag in place as the step function says, and calls the parser as it says |
| NmeaFraming.NmeaReader.Feed | gps/hal/gps_mtk_aosp.c:3918-3926 | the bytes of one read, one by one |
| NmeaFraming.ReadAll | gps/hal/gps_mtk_aosp.c:2433-2458 | a new reader fed any stream in any chunks hands over the kept lines of the whole stream |
| NmeaTokens.JoinedFields | gps/hal/gps_mtk_aosp.c:1342-1360 | joining the fields with commas gives the body back up to one trailing comma |
| NmeaTokens.FieldsOfJoin | gps/hal/gps_mtk_aosp.c:1342-1360 | comma-free fields are found again in their joined body, up to an empty last one |
| NmeaTokens.FieldsHaveNoComma | gps/hal/gps_mtk_aosp.c:1345-1347 | no field contains a comma |
| NmeaTokens.TokensOfSentence | gps/hal/gps_mtk_aosp.c:1322-1364 | a framed sentence with dollar sign, checksum and line end gives exactly its fields, up to 24 and up to an empty last one |
| NmeaTokens.OrderedTokensAreDisjoint | gps/hal/gps_mtk_aosp.c:1349-1358 | any two tokens are in order, disjoint and within the body |
| NmeaTokens.TokenizerInit | gps/hal/gps_mtk_aosp.c:1322-1364 | at most 24 tokens, slices of the stripped body in order and one comma apart, whose texts are its first fields |
| NmeaTokens.Split | gps/hal/gps_mtk_aosp.c:1342-1360 | the token loop on any stretch of a sentence |
| NmeaTokens.Str2Int | gps/hal/gps_mtk_aosp.c:1383-1414 | the value of a token; -1 for any other character |
| NmeaTokens.NumberRoundTrip | gps/hal/gps_mtk_aosp.c:1383-1414 | every integer is read back from its decimal form |
| NmeaTokens.NineDigitsFit | gps/hal/gps_mtk_aosp.c:1406-1406 | tokens of at most nine digits cannot overflow |
| SatelliteView.ReportsAreExpected | gps/hal/gps_mtk_aosp.c:2231-2279 | for in-order groups with reports between groups, every report is the concatenation of the accepted satellites since the last one, in arrival order, cut at 64, with the used marks set before each satellite's message |
| SatelliteView.CountedEntriesStay | gps/hal/gps_mtk_aosp.c:1968-1972 | whatever sentence arrives, entries below `num_svs` keep their values unless `num_svs` is reset |
| SatelliteView.CountedEntriesStayThroughout | gps/hal/gps_mtk_aosp.c:1954-1999 | the same over streams of any length |
| SatelliteView.CountLeavesListOnlyIf | gps/hal/gps_mtk_aosp.c:2263-2277 | a message takes `num_svs` past the list exactly if it is a final one, not the first of its group, not taken for incomplete, and the gathered satellites already do not fit |
| SatelliteView.RepeatedFinalMessageOverflows | gps/hal/gps_mtk_aosp.c:2263-2266 | after forty satellites a repeated final message takes `num_svs` to 80 |
| SatelliteView.GroupWithinCount | gps/hal/gps_mtk_aosp.c:2264-2264 | an in-order group accepts no more satellites than it announces, so it is never dropped as incomplete |
| SatelliteView.MarkedIs | gps/hal/gps_mtk_aosp.c:2155-2170 | behind a GSA sentence a satellite is marked exactly if the sentence names it before any unknown number and it is of GPS, GLONASS or Beidou, or if it is not named and was marked |
| SatelliteView.StartForgets | gps/hal/gps_mtk_aosp.c:1552-1555 | behind CMD_START nothing gathered before is reported |
| SatelliteView.ShortLineSaysNothing | gps/hal/gps_mtk_aosp.c:2089-2110 | a line or first field that is too short changes nothing and reports nothing |
| SatelliteView.SvReader.constructor | gps/hal/gps_mtk_aosp.c:1499-1520 | a new reader counts and marks nothing |
| SatelliteView.SvReader.UpdateSvStatusGnss | gps/hal/gps_mtk_aosp.c:1954-1999 | one satellite is written behind the counted ones or ignored |
| SatelliteView.SvReader.ParseGsv | gps/hal/gps_mtk_aosp.c:2237-2279 | one GSV message, its numbers read, is the message function on values |
| SatelliteView.SvReader.ParseGsa | gps/hal/gps_mtk_aosp.c:2138-2170 | one GSA message marks the satellites up to the first unknown number |
| SatelliteView.SvReader.ReportAtEnd | gps/hal/gps_mtk_aosp.c:2399-2410 | the report and the clearing behind it, only at the end of a batch with satellites counted |
| SatelliteView.SvReader.Parse | gps/hal/gps_mtk_aosp.c:2399-2410 | one sentence and its report, as the functions on values say |
| SatelliteView.SvReader.ParseLine | gps/hal/gps_mtk_aosp.c:2083-2138 | one complete line: tokenized, dispatched by its sentence id, handled, and reported behind; too short a line returns before the report |
| SatelliteView.ReadLine | gps/hal/gps_mtk_aosp.c:2089-2138 | the sentence a line carries, by its first token |
| SatelliteView.ReadGsa | gps/hal/gps_mtk_aosp.c:2139-2154 | fix mode and satellite numbers up to the first empty field, those of talker BD from 200 on |
| SatelliteView.ReadGsv | gps/hal/gps_mtk_aosp.c:2231-2258 | the message numbers and the four satellites of a GSV sentence, those of talker BD from 200 on |
| NmeaPipeline.BytesGiveExpectedReports | gps/hal/gps_mtk_aosp.c:3901-3908 | if the lines of the batches amount to in-order GSV groups with reports between groups, the reports made of the bytes are the expected lists |
| NmeaPipeline.WholeLinesArrive | gps/hal/gps_mtk_aosp.c:3901-3908 | batches of whole lines reach the parser line by line, and only the last line of a batch sees its end |
| NmeaPipeline.BytesAreLines | gps/hal/gps_mtk_aosp.c:2433-2458 | byte by byte or line by line, a batch means the same sentences |
| NmeaPipeline.FeedByte | gps/hal/gps_mtk_aosp.c:2433-2458 | one byte through framing, parser and report |
| NmeaPipeline.FeedBatch | gps/hal/gps_mtk_aosp.c:3901-3908 | the bytes of one read, the last one marked |
| NmeaPipeline.ReadBatches | gps/hal/gps_mtk_aosp.c:3870-3908 | the reads of one wake-up: the reports made of any bytes in any batches are those of the lines the framing keeps, as the tokenizer reads them |
| NmeaText.GsvLineReads | gps/hal/gps_mtk_aosp.c:2229-2258 | a framed GSV sentence is read as the message its fields carry |
| NmeaText.GsaLineReads | gps/hal/gps_mtk_aosp.c:2138-2154 | a framed GSA sentence is read as its mode and the numbers before the first empty field |
| NmeaText.GsvMessageReads | gps/hal/gps_mtk_aosp.c:2231-2258 | sentence k of a printed group is read as message k: the counts and each satellite's number, elevation, azimuth and signal text |
| NmeaText.GsaReads | gps/hal/gps_mtk_aosp.c:2138-2170 | a printed GSA sentence is read as the mode and the satellites printed |
| NmeaText.GroupAcceptsAll | gps/hal/gps_mtk_aosp.c:2237-2266 | a printed group accepts exactly the acceptable ones of its satellites, in order, whatever their number |
| NmeaText.PrintedSatellitesAreReported | gps/hal/gps_mtk_aosp.c:2231-2279 | round trip of the whole pipeline: satellites printed four to a sentence, among GSA and other sentences, in batches of lines that fit the buffer, are reported behind each batch exactly as printed, filtered to acceptable numbers, marked as used and cut at 64 |
| NmeaFlags.UsedIs | gps/hal/gps_mtk_aosp.c:2144-2170 | behind printed sentences exactly those satellites are marked that a GSA sentence with fix 2 or 3 among them named |
| NmeaFlags.PendingShows | gps/hal/gps_mtk_aosp.c:1975-1990 | the satellites pending are those printed with a number of GPS, GLONASS or Beidou, in order, each with its constellation, angles and signal, and flagged exactly if marked before its group |
| NmeaFlags.PrintedSatellitesAreFlagged | gps/hal/gps_mtk_aosp.c:2399-2410 | bytes to reports: one report behind each batch that ends with satellites listed since the last one, of exactly these, each flagged exactly if a GSA sentence with a fix printed its number since the last report, before its group and before any unknown number |
| NmeaLoop.PromptReadsLoseNothing | gps/hal/gps_mtk_aosp.c:3864-3869 | with a report interval of at most a second the parser gets all bytes that arrived, up to those unread |
| NmeaLoop.EveryPeriodthWakeReads | gps/hal/gps_mtk_aosp.c:3864-3869 | under a constant interval exactly every ceil(interval)-th wake-up is read |
| NmeaLoop.BatchesInOrder | gps/hal/gps_mtk_aosp.c:3864-3869 | batches are taken in the order they arrive, each once; a wake-up that comes too early takes the oldest one |
| NmeaLoop.ServeWake | gps/hal/gps_mtk_aosp.c:3811-3908 | one wake-up: a batch forgotten, everything read, or the counts reset by CMD_START |
| NmeaLoop.ReadReports | gps/hal/gps_mtk_aosp.c:3811-3908 | the reports a new HAL thread makes over any arrivals, wake-ups, intervals and start commands are those of the batches it reads |
| EccList.AcceptedAfterRefresh | ril/telephony/java/com/android/internal/telephony/MtkEccList.java:335-382 | the numbers accepted after a refresh, in terms of the properties before it |
| EccList.RefreshLosesNothing | ril/telephony/java/com/android/internal/telephony/MtkEccList.java:335-382 | a refresh rejects no number accepted before, exactly if no property has an empty piece in front of a number or the network lists the empty number |
| EccList.RefreshGrowsByNoSim | ril/telephony/java/com/android/internal/telephony/MtkEccList.java:361-364 | otherwise the accepted set grows by exactly the no-SIM numbers, and only if a slot was empty or nothing at all is listed |
| EccList.RefreshKeepsAccepted | ril/telephony/java/com/android/internal/telephony/MtkEccList.java:335-382 | the accepted set is unchanged if both slots were empty or both were not and something is listed |
| EccList.SplitOfJoin | ril/telephony/java/com/android/internal/telephony/MtkEccList.java:352-365 | what the rewriter joins, the lookup splits back |
| EccList.SecondRefresh | ril/telephony/java/com/android/internal/telephony/MtkEccList.java:335-382 | the second refresh yields the same string, exactly if an empty slot is filled from two lists one of which ends with the other (as an empty one does), and any other slot did not consist of commas with only no-SIM numbers customized |
| EccList.ThirdRefresh | ril/telephony/java/com/android/internal/telephony/MtkEccList.java:335-382 | from the second refresh on the string never changes |
| EccList.SecondRefreshKeepsNumbers | ril/telephony/java/com/android/internal/telephony/MtkEccList.java:335-382 | the second refresh keeps the set of numbers, with the same one exception |
| EccList.MergeAddsNumbers | ril/telephony/java/com/android/internal/telephony/MtkEccList.java:152-178 | merging the Chinese network's numbers makes exactly these accepted in addition, with and without a SIM |
| EccList.MergedNumberHasCategoryZero | ril/telephony/java/com/android/internal/telephony/MtkEccList.java:317-332 | such a number has service category 0 among the customized entries, whatever these were |
| JavaText.SplitOfJoined | ril/telephony/java/com/android/internal/telephony/MtkEccList.java:202-204 | parts joined by a separator are split again, up to empty ones at the end |
| JavaText.IntegerRoundTrip | ril/telephony/java/com/android/internal/telephony/MtkEccList.java:206-207 | every 32-bit integer is read back from its decimal form |
| EccNetwork.PrintedListReads | ril/telephony/java/com/android/internal/telephony/MtkEccList.java:199-210 | a printed list "number,category" joined by semicolons is read back as the map whose keys are exactly the numbers, each with its last category |
| EccNetwork.PrintedNumbersAccepted | ril/telephony/java/com/android/internal/telephony/MtkEccList.java:211-219 | the lookup finds a number in such a list exactly if it is printed there, or printed and followed by a plus sign, and then accepts it whatever the other lists say |
| EccNetwork.LookUpPrinted | ril/telephony/java/com/android/internal/telephony/MtkEccList.java:299-316 | the lookup accepts a printed number, and the category asked for behind it is the printed one, unless the number itself ends with a plus sign |
| EccNetwork.SimNumbersAccepted | ril/telephony/java/com/android/internal/telephony/MtkEccList.java:222-252 | the numbers of either SIM's property are accepted, alone and with a plus sign |
| EccNetwork.CustomizedNumbersAccepted | ril/telephony/java/com/android/internal/telephony/MtkEccList.java:254-285 | a customized number is accepted, unless it is for no SIM and a property lists something |
| EccNetwork.CustomizedCategory | ril/telephony/java/com/android/internal/telephony/MtkEccList.java:321-332 | the category of the first customized entry with the number |
| EccNetwork.EachSlotKeepsItsNumbers | ril/telephony/java/com/android/internal/telephony/MtkEccList.java:335-382 | a refresh writes to each SIM's property its own numbers and the customized ones that apply to it, and nothing of the other SIM |
| EccList.MtkEccList.constructor | ril/telephony/java/com/android/internal/telephony/MtkEccList.java:46-51 | the list and the properties are as given |
| EccList.MtkEccList.Matches | ril/telephony/java/com/android/internal/telephony/MtkEccList.java:229-237 | finds a number, or a number followed by a plus sign, in a list |
| EccList.MtkEccList.MatchesCustomized | ril/telephony/java/com/android/internal/telephony/MtkEccList.java:258-286 | the same over the customized entries that apply |
| EccList.MtkEccList.ReadNetwork | ril/telephony/java/com/android/internal/telephony/MtkEccList.java:200-213 | the map of numbers and categories the network's property spells, or its exception |
| EccList.MtkEccList.MatchesNetwork | ril/telephony/java/com/android/internal/telephony/MtkEccList.java:214-221 | finds a matching key of the map, whatever the order of its keys |
| EccList.MtkEccList.IsEmergencyNumberExt | ril/telephony/java/com/android/internal/telephony/MtkEccList.java:188-289 | false for null, the exception for a malformed category, and otherwise exactly the numbers the acceptance predicate names |
| EccList.MtkEccList.Lookup | ril/telephony/java/com/android/internal/telephony/MtkEccList.java:214-288 | the three lists in turn |
| EccList.MtkEccList.GetServiceCategoryFromEcc | ril/telephony/java/com/android/internal/telephony/MtkEccList.java:297-333 | the category of a matching network number, else of the first matching customized entry, else 0 |
| EccList.MtkEccList.ReadList | ril/telephony/java/com/android/internal/telephony/MtkEccList.java:354-357 | collects the non-empty pieces of a property in order |
| EccList.MtkEccList.MergeCta | ril/telephony/java/com/android/internal/telephony/MtkEccList.java:152-178 | replaces or appends the four numbers in turn |
| EccList.MtkEccList.MergeOne | ril/telephony/java/com/android/internal/telephony/MtkEccList.java:155-177 | replaces the first entry with the number, or appends one |
| EccList.MtkEccList.RefreshSlot | ril/telephony/java/com/android/internal/telephony/MtkEccList.java:352-365 | rewrites one property |
| EccList.MtkEccList.UpdateEmergencyNumbersProperty | ril/telephony/java/com/android/internal/telephony/MtkEccList.java:335-382 | rewrites both properties |
| TalkerView.FlaggedAreUsed | gps/YGPS/src/com/mediatek/ygps/NmeaParser.java:377-406 | after any stream a satellite flagged as used has its number in its own talker's used list |
| TalkerView.ExactSinceGga | gps/YGPS/src/com/mediatek/ygps/NmeaParser.java:428-431 | from a GGA sentence to the talker's next GSA sentence, flags and used list say the same |
| TalkerView.OnlyOwnSentencesMatter | gps/YGPS/src/com/mediatek/ygps/NmeaParser.java:210-254 | a talker's lists depend only on its own GSA and GSV sentences and the GGA sentences of the stream |
| TalkerView.WhatChangesLists | gps/YGPS/src/com/mediatek/ygps/NmeaParser.java:210-254 | a satellite list changes only under its talker's sentences or a GGA, a used list only under its talker's GSA |
| TalkerView.SpelledNumberReads | gps/YGPS/src/com/mediatek/ygps/NmeaParser.java:195-204 | a number in decimal is read, with any zeros in front |
| TalkerView.GsaListsItsSatellites | gps/YGPS/src/com/mediatek/ygps/NmeaParser.java:383-398 | behind a GSA sentence with a fix the used list is the fix mode followed by the satellites the sentence names, and no satellite is flagged |
| TalkerView.GsaWithoutFix | gps/YGPS/src/com/mediatek/ygps/NmeaParser.java:383-406 | behind one without a fix it is empty |
| TalkerView.GsvListsItsSatellites | gps/YGPS/src/com/mediatek/ygps/NmeaParser.java:469-512 | behind a GSV sentence the list is that before it, or none for a first message, and the satellites of the sentence in order, flagged exactly if in the used list |
| TalkerView.NotifiedPerGroup | gps/YGPS/src/com/mediatek/ygps/NmeaParser.java:213-219 | the screen is notified once behind each unbroken group of GSV sentences |
| TalkerView.NmeaParser.constructor | gps/YGPS/src/com/mediatek/ygps/NmeaParser.java:83-100 | all lists start empty |
| TalkerView.NmeaParser.IsUsedInFix | gps/YGPS/src/com/mediatek/ygps/NmeaParser.java:49-62 | answers membership in the current talker's used list and changes no list's contents |
| TalkerView.NmeaParser.AddUsedFixId | gps/YGPS/src/com/mediatek/ygps/NmeaParser.java:64-71 | appends to the current talker's list only |
| TalkerView.NmeaParser.ClearUsedFixList | gps/YGPS/src/com/mediatek/ygps/NmeaParser.java:73-81 | empties the current talker's list only |
| TalkerView.NmeaParser.ClearFlags | gps/YGPS/src/com/mediatek/ygps/NmeaParser.java:140-147 | unflags the current talker's satellites only |
| TalkerView.NmeaParser.AddUsedIds | gps/YGPS/src/com/mediatek/ygps/NmeaParser.java:393-398 | appends the positive numbers of fields 2 to 14, field 2 included |
| TalkerView.NmeaParser.ParseGsa | gps/YGPS/src/com/mediatek/ygps/NmeaParser.java:377-408 | both lists behind a GSA sentence, and whether it throws at field 17 |
| TalkerView.NmeaParser.AddSats | gps/YGPS/src/com/mediatek/ygps/NmeaParser.java:488-512 | appends the readable satellites, each flagged by the used list |
| TalkerView.NmeaParser.ParseGsv | gps/YGPS/src/com/mediatek/ygps/NmeaParser.java:469-519 | the satellite list behind a GSV sentence, and whether it throws |
| TalkerView.NmeaParser.ClearSatelliteList | gps/YGPS/src/com/mediatek/ygps/NmeaParser.java:124-128 | empties every talker's satellite list |
| TalkerView.NmeaParser.CheckTalker | gps/YGPS/src/com/mediatek/ygps/NmeaParser.java:169-178 | the first known talker whose prefix occurs in the sentence |
| TalkerView.NmeaParser.Parse | gps/YGPS/src/com/mediatek/ygps/NmeaParser.java:210-254 | all lists, the parse state, the view notification and the exception of one sentence |
| Fingerprint.SessionsCommitOnce | ma_fingerprint/ma_fprint.c:786-824 | in every interleaving that disturbs no session, a session commits one template and one token at most, to the smallest slot empty when it was chosen, exactly if the grade becomes 100, and no scan completes into an enrolled slot |
| Fingerprint.FinishedUnlessDisturbed | ma_fingerprint/ma_fprint.c:403-426 | in every interleaving of the statements of call and press, a session is committed whole with its own token if its grade ended at 100 and has done nothing otherwise, exactly if no step disturbed it; the steps that disturb are listed by the places of call and press alone |
| Fingerprint.IntrusionMisplacesToken | ma_fingerprint/ma_fprint.c:807-818 | a run in which a second call sends a token to a slot without a template |
| Fingerprint.LateClearingOverwrites | ma_fingerprint/ma_fprint.c:409-421 | a run with a single call in which a later template overwrites an enrolled one |
| Fingerprint.ScansFollowFailedMatches | ma_fingerprint/ma_fprint.c:796-807 | in every run each `fp_enroll` call comes directly behind failed matches with slots 1 to 5 |
| Fingerprint.StepKeepsInv | ma_fingerprint/ma_fprint.c:786-824 | every statement of call and press, disturbing or not, keeps the session invariant |
| Fingerprint.NewFid | ma_fingerprint/ma_fprint.c:381-395 | the smallest empty slot, or -4 exactly if none is empty |
| Fingerprint.EnrolledIs | ma_fingerprint/ma_fprint.c:558-596 | in every run a slot is enrolled exactly if the last step that touches it is a completed scan into it, not a removal of it or of all |
| Fingerprint.RemovedSlotIsNext | ma_fingerprint/ma_fprint.c:575-577 | a removed slot stays free until a scan into it completes, and until then a call chooses it or a lower one |
| Fingerprint.ComparedUpToMatch | ma_fingerprint/ma_fprint.c:796-805 | the slots are compared from the first on up to the first match |
| Fingerprint.WhichPressesCompare | ma_fingerprint/ma_fprint.c:789-797 | a press calls the library exactly if it covers the whole sensor and the grade is not 100 |
| Fingerprint.Mafprint.constructor | ma_fingerprint/ma_fprint.c:44-53 | no session, no grade, nothing enrolled |
| Fingerprint.Mafprint.FindNewFid | ma_fingerprint/ma_fprint.c:381-395 | the slot loop finds the first free slot |
| Fingerprint.Mafprint.DoEnroll | ma_fingerprint/ma_fprint.c:403-426 | an uninterrupted call begins a session, or only replaces the token if the database is closed |
| Fingerprint.Mafprint.DoPress | ma_fingerprint/ma_fprint.c:786-824 | an uninterrupted press: early returns, comparisons up to the first match, scan and commit |
| Fingerprint.Mafprint.DoScanAndCommit | ma_fingerprint/ma_fprint.c:807-818 | the part of an uninterrupted press behind the comparisons |
| Fingerprint.Mafprint.DoRemove | ma_fingerprint/ma_fprint.c:558-596 | clears one slot, all five, or none, with the matching messages |
| DataCalls.IdNamesSlot | ril/telephony/java/com/android/internal/telephony/MT6735.java:269-313 | in every run with one set-up outstanding and fresh call ids, the id sent is one plus the slot of the call exactly if no lower slot was freed in between; live calls keep distinct slots and ids |
| DataCalls.ZeroMeansFull | ril/telephony/java/com/android/internal/telephony/MT6735.java:286-293 | id 0 is sent exactly if all four slots are taken |
| DataCalls.StoredIsFound | ril/telephony/java/com/android/internal/telephony/MT6735.java:484-497 | a new call is found in the slot that was free first, and nowhere if none was |
| DataCalls.CallsFillSlots | ril/telephony/java/com/android/internal/telephony/MT6735.java:484-497 | calls reported one after the other take the four slots in order, a fifth none |
| DataCalls.FreedMovesFirstFree | ril/telephony/java/com/android/internal/telephony/MT6735.java:306-311 | a deactivation moves the first free slot exactly if its call lies below it |
| DataCalls.OvertakingMisnamesSlot | ril/telephony/java/com/android/internal/telephony/MT6735.java:484-497 | a run that sends id 3 for a call kept in the first slot |
| DataCalls.StepKeepsInv | ril/telephony/java/com/android/internal/telephony/MT6735.java:269-313 | every request, reply and deactivation keeps the slot invariant |
| DataCalls.MT6735.constructor | ril/telephony/java/com/android/internal/telephony/MT6735.java:59-59 | five entries, all free |
| DataCalls.MT6735.SetupDataCall | ril/telephony/java/com/android/internal/telephony/MT6735.java:286-293 | the id of the first free slot |
| DataCalls.MT6735.FetchCidFromDataCall | ril/telephony/java/com/android/internal/telephony/MT6735.java:484-497 | stores a call id in the slot that is free first, if there is one |
| DataCalls.MT6735.DeactivateDataCall | ril/telephony/java/com/android/internal/telephony/MT6735.java:305-311 | frees the first slot with the call id and no other |
| ReportScheduler.UploadsAreSpaced | romstats/src/android/romstats/ReportingServiceManager.java:100-151 | with a clock that does not go back, consecutive uploads under one version hash are at least the interval apart, except at most one, the first after the first app launch |
| ReportScheduler.AlarmIsFirstInstant | romstats/src/android/romstats/ReportingServiceManager.java:75-98 | the alarm stored by `setAlarm(0)` is the first instant at which the gate opens for the version last reported |
| ReportScheduler.NothingUntilAlarm | romstats/src/android/romstats/ReportingServiceManager.java:134-146 | nothing is uploaded before that alarm, whatever happens until then, and the alarm's own event uploads |
| ReportScheduler.NothingWhileOptedOut | romstats/src/android/romstats/ReportingServiceManager.java:100-112 | while a user has opted out nothing is uploaded and no preference changes, until the app is opened |
| ReportScheduler.CookieOptsOut | romstats/src/android/romstats/ReportingServiceManager.java:43-45 | a boot with the opt-out file before any choice opts out |
| ReportScheduler.WhenUploaded | romstats/src/android/romstats/ReportingServiceManager.java:100-151 | the exact condition under which a connectivity event uploads, in days and milliseconds |
| ReportScheduler.GraceOnlyForKnownVersion | romstats/src/android/romstats/ReportingServiceManager.java:75-81 | the interval a first boot grants for opting out holds exactly if the version was reported before; otherwise the next event uploads at once |
| ReportScheduler.FailedUploadIsRetried | romstats/src/android/romstats/ReportingService.java:145-150 | a failed upload is due again three hours later |
| ReportScheduler.StepKeepsInv | romstats/src/android/romstats/ReportingService.java:130-151 | every event keeps the spacing invariant |
| ReportScheduler.ReportingServiceManager.constructor | romstats/src/android/romstats/ReportingServiceManager.java:54-70 | no preference is set |
| ReportScheduler.ReportingServiceManager.DoSetAlarm | romstats/src/android/romstats/ReportingServiceManager.java:54-98 | stores the alarm, and fakes a first report if there was none |
| ReportScheduler.ReportingServiceManager.OnPostExecute | romstats/src/android/romstats/ReportingService.java:130-151 | the preferences after a successful and after a failed upload |
| ReportScheduler.ReportingServiceManager.LaunchService | romstats/src/android/romstats/ReportingServiceManager.java:100-151 | the gate, and the upload as one step with it |
| ReportScheduler.ReportingServiceManager.OnReceive | romstats/src/android/romstats/ReportingServiceManager.java:38-52 | boot and connectivity events |
| ReportScheduler.ReportingServiceManager.OnCreate | romstats/src/android/romstats/AnonymousStats.java:92-100 | the app's opt-in and the forced first report |

## Left out

- Session: start and stop alternate from one thread, sends succeed, each stop gets exactly one HAL_CMD_MNL_DIE and none arrives otherwise; cleanup is called between sessions; HAL_CMD_GPS_ICON reports the same statuses outside the protocol.
- Session.CleanupClosesBooks: the wait for the EPO thread's exit flag at the end of cleanup is not modelled.
- EpoDownload: a framework request, which clears the count, unlinks the file and sets the flag, is one step, and so are the steps of the thread; file errors other than short pieces and file locks are not modelled; when mtk_gps_start asks for a download is left open.
- EpoRetry: the daemon's EPO.DAT is an input; RetryEnds takes attempts on a connected network at which the server does not move on and first pieces are current; the Wi-Fi period is at least a day, as the code allows 1, 3, 15 and 30.
- NmeaLoop: the wake-up count is a real number, and a batch has any length; reading the device never fails.
- GpsCalendar: daylight saving in `mktime` and a 32-bit `time_t`; the zone is a fixed offset of at most a day.
- NmeaTokens.Str2Int: wrap-around of a C int on tokens of ten digits and more (NineDigitsFit).
- SatelliteView: signal strengths stay unread text; the `gps_mode == 1` branches; sentences other than GSV and GSA beyond their report; GPS_MAX_SVS = 32 and GNSS_MAX_SVS = 64 come from Android's gps.h, which is not part of this model.
- WireCodec: only fields that fit the buffer, as the source never checks its bounds.
- EccList: XML parsing and `extractNetworkPortionAlt` are inputs; digits outside ASCII; customized entries are taken as non-empty and free of commas.
- TalkerView: positions, speeds, dilution of precision, elevation, azimuth and signal strength; digits outside ASCII.
- Fingerprint: timing, gestures, matching quality, matching mode, `ma_enumerate`; database updates succeed; an enrolled template appears when `fp_enroll` returns 100; framework calls come one at a time, and the slot search of one is one step.
- Fingerprint.Mafprint.DoEnroll: the stop flag and the wait for `busy`, which `enroll` never sets.
- DataCalls: more than one set-up outstanding, and modem ids reused while live.
- ReportScheduler: reporting mode is the constant 0 of the source; gate and upload are one step; 64-bit overflow of times.
- Sockets, epoll, curl, ioctl, property service limits, GPS AT commands, measurement and navigation copying, wpa_supplicant, mrdump, Bluetooth, log libraries, activities and screens are not modelled.
