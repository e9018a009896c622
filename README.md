# pywebwatcher2, modelled in Dafny

pywebwatcher2 watches the reachability and latency of a fixed list of network
targets from one local interface, optionally captures the traffic on that
interface, stores both as time-stamped rows, and later either shows them in a
scrolling live chart or exports them (CSV, one graph per chunk, paginated
PDF). This project models the logic of that pipeline and proves what it does:

- `live_view.dfy` (`LiveView`): the `PingScene` buffer of the live chart, as a
  class. It covers the newest-first stamps, the scroll offset, the "sticky"
  flag, the counters, mouse scrolling, live stamps, the single backfill pull and
  its one clamp step, the indices `draw_stamps` reads, and the axis labels.
  `LiveViewRuns` drives the class through two concrete runs.
- `grouping.dfy` (`Grouping`), `csv_export.dfy` (`CsvExport`), `exporter.dfy`
  (`Exporter`) and `exporter_snapshot.dfy` (`ExporterSnapshot`): the exporter
  `Generator` of `user_io/output.py` and its earlier copy in `output.py`. They
  cover grouping a chunk into series, CSV lines, graph file names and PDF
  pagination. The grouping helpers of `output.py` (lines 68-183) are the same
  code as those of `user_io/output.py`; each is modelled once, and the table
  cites the `user_io/` copy.
- `nettest.dfy` (`NetTest`): the probe sweep of `StabilityTester`, one outcome
  per target, and the event-controlled loops around it.
- `sniffer.dfy` (`Capture`): the packet filter of `Sniffer` and the row it stores.
- `flag_checks.dfy` (`FlagChecks`), `flags.dfy` (`Flags`) and
  `flags_snapshot.dfy` (`FlagsSnapshot`): the command-line handler `CMDHandler`
  of `user_io/flag_handler.py`, with its argument checks, `parse_sys_args` and
  `post_processing`, and the earlier handler of `flag_handler.py`. The
  argument checks of `flag_handler.py` (lines 77-104) are the same code as
  those of `user_io/flag_handler.py`; they are modelled once, and the table
  cites the `user_io/` copy.
- `wrappers.dfy`, `text.dfy`, `seqs.dfy` and `records.dfy` are the shared
  vocabulary:
  - `Option` and `Result`;
  - the few Python string operations used (`upper`, `split(",")`, `str(n)`, `int`, `float`);
  - order-preserving de-duplication, filtering and partition counts;
  - the stored row types.

Python exceptions are `Result` failures of the datatype `FlagChecks.CmdError`.
The handler's `exceptions` list and the store are sequences that the methods
append to. The clock, the ping, the capture, the store's chunked queries, the
interface lists and `datetime` arithmetic are parameters.

Where the code and its documentation disagree, the model follows the code:

- Pagination. A document is flushed after a chunk when the running line
  count exceeds 50000. So 50,001 lines arriving in one chunk give a single
  document, not two (`Exporter.LimitPlusOneIsOneDocument`).
- The live chart's clamp. When the view is still short after the backfill,
  the offset moves back by one step only (2), not to the largest offset the
  buffer can show. `draw_stamps` then reads past the end of the buffer
  (`LiveViewRuns.ClampStepTooSmall`). A backfill that exactly satisfies the
  check can also leave `draw_stamps` short, because the check is made before
  the pull (`LiveViewRuns.BackfillThatFitsStillOverruns`).
- Latency. The sweep stores the latency as `int()` of the milliseconds that
  ping returns, a truncation. The model receives the latency already as a
  whole number of milliseconds.
- Dates. The usage text documents dates as `YYYY,MM,DD,HH,MM,SS`. But
  `convert_list_datetime` accepts one to five parts only, so a six-part date
  is rejected (`FlagChecks.SixPartDateRejected`). `-records` accepts six parts
  while parsing, and the conversion then raises out of `post_processing`
  (`Flags.PostRecords`).
- `-save` in the newer handler. It checks the part count of the start date
  twice and never the end date's (`Flags.SaveChecksOnlyStartDate`).
- `-data` in the newer handler. It reads its value before checking that the
  value exists, so a missing value is an `IndexError`
  (`Flags.DataValueReadFirst`).
- Pickle files in the newer handler. A pickle-file argument does not advance
  `index`, so every later flag reads its value one position early
  (`Flags.PickleShiftsValues`).
- The interface lookup. It walks the address list and indexes the name list
  at the same position, so a shorter name list raises `IndexError`
  (`Flags.PostInterfaceLookup`).
- The older handler (`flag_handler.py`):
  - it checks `argv[0]`, the script path, as a flag, so it rejects every
    command line that starts with one (`FlagsSnapshot.ScriptPathRejected`);
  - `-graph` is missing from its valid flags (`FlagsSnapshot.GraphRejected`);
  - `-i`, `-l`, `-t` and `-f` take their "value" from the flag's own text
    (`arg[index + 1]`), so `-l` and `-t` always fail and `-i`/`-f` store a
    letter (`FlagsSnapshot.LoopFlagAlwaysFails`,
    `FlagsSnapshot.InterfaceFromFlagText`);
  - `index` moves only on skipped arguments.

## Model

| member | source | states |
|---|---|---|
| LiveView.RoundDiv | user_io/PingScene.py:32 | Python's `round(a / b)` for a positive divisor: the nearest integer, ties to the even one |
| LiveView.PingScene.constructor | user_io/PingScene.py:18-37 | a new scene is pinned to the live edge with offset 0, no stamps, zero counters, and `stepy = round(ylim / element_count)` |
| LiveView.PingScene.PushEvent | user_io/PingScene.py:56-73 | other events change nothing; wheel up adds 2 to the offset and unpins; wheel down subtracts 2 and, at 0 or below, pins to offset 0; a left click on the jump button with a positive offset pins to 0; the scene invariant (offset never negative, pinned means offset 0) is kept |
| LiveView.PingScene.AddStamp | user_io/PingScene.py:241-249 | the stamp is inserted at index 0 and every old entry moves up by one unchanged; the total grows by 1; the dead count grows by 1 exactly when the latency is not positive; the offset grows by 1 exactly when unpinned; the invariant is kept |
| LiveView.RowStamps | user_io/PingScene.py:262-266 | one stamp per stored row, in the rows' order, labelled with the row's readable receiver and carrying its latency |
| LiveView.DeadRowStamps | user_io/PingScene.py:263-264 | converting rows keeps exactly the dead rows dead |
| LiveView.ConvertRows | user_io/PingScene.py:262-266 | the conversion loop gives the stamps of the rows and counts the rows whose latency is not positive |
| LiveView.PingScene.Render | user_io/PingScene.py:251-275 | a pinned view, or one that already holds enough entries, is unchanged; otherwise one pull with skip = the total, its stamps appended at the end in order, the total raised by 100 whatever the pull returns, the dead count raised per dead row, then at most one clamp step (minus 2, or to 0); pinning is unchanged and the invariant kept |
| LiveView.PingScene.DrawStamps | user_io/PingScene.py:166-185 | the pairs at `i + offset` and `i + 1 + offset` for `0 <= i < end - 1` all exist exactly when fewer than two entries are drawn or the buffer holds `end + offset` entries, and then they are those entries; at offset 0 they always exist |
| LiveView.PingScene.GetXLabel | user_io/PingScene.py:121-130 | tick `index` below `element_count - 1` is `stepx * (element_count + offset - 1 - index)`; the last tick is `stepx * offset` when scrolled and "LIVE" when not |
| LiveView.PingScene.GetYLabel | user_io/PingScene.py:132-137 | tick `index` exists exactly for `0 <= index < element_count` and is `stepy * (index + 1)` |
| LiveViewRuns.LiveScene | user_io/PingScene.py:241-249 | `n` live stamps on a fresh ten-element scene leave `n` entries, a total of `n`, offset 0 and the view pinned |
| LiveViewRuns.BackfillThatFitsStillOverruns | user_io/PingScene.py:253-268 | three live stamps, one wheel notch up and a pull that returns three rows satisfy the backfill check, yet `draw_stamps` then reads past the end |
| LiveViewRuns.ClampStepTooSmall | user_io/PingScene.py:270-275 | twelve entries with ten per frame and offset 11, with nothing left to pull, clamp to offset 9, which `draw_stamps` cannot satisfy |
| Seqs.DedupSpec | user_io/output.py:88-96 | de-duplication keeps every value once and only values of the input |
| Seqs.DedupOrder | user_io/output.py:88-96 | de-duplicated values keep the order of their first occurrences |
| Seqs.FilterKeyMembers | user_io/output.py:167-175 | the rows selected by a key are exactly the input rows with that key |
| Seqs.GroupsPartition | user_io/output.py:128-156 | grouping by the distinct keys, in first-occurrence order, puts every row in exactly one group |
| Grouping.GetAllIpsFromTimestamp | user_io/output.py:88-96 | the distinct interfaces of a chunk, each once, in first-occurrence order |
| Grouping.ServersForKeys | user_io/output.py:98-109 | the receivers listed for an interface are its rows' distinct receivers in first-occurrence order |
| Grouping.ServersForComplete | user_io/output.py:98-109 | every receiver with a row on the interface is listed |
| Grouping.ServersForFirst | user_io/output.py:98-109 | each listed label is the one of that receiver's first row on the interface |
| Grouping.GetAllServersForIp | user_io/output.py:98-109 | one `(receiver, readable)` pair per distinct receiver of the interface, labelled from its first row, in first-occurrence order |
| Grouping.MatchingNested | user_io/output.py:111-126 | selecting the rows of an (interface, receiver) route is selecting the interface's rows and then the receiver's |
| Grouping.MaxBelowLimit | user_io/output.py:111-126 | the y bound is at least 1, at least every latency below its row's limit, and is 1 or one of those latencies |
| Grouping.GetDataPoints | user_io/output.py:111-126 | the latencies and times of the route's rows, in chunk order and of equal length, and their y bound |
| Grouping.GenerateTimestampDataPlots | user_io/output.py:128-156 | the series of a chunk: per interface in first-occurrence order, one series per receiver, titled `Interface <ip or unknown> server <readable>` |
| Grouping.TimestampPlotsPartition | user_io/output.py:128-156 | every row of a chunk lands in exactly one series: the series lengths add up to the chunk length |
| Grouping.GetAllInterfacesFrom | user_io/output.py:158-165 | the distinct capture interfaces of a packet chunk, each once, in first-occurrence order |
| Grouping.FormatPacketDatetimes | user_io/output.py:167-175 | the times of the interface's packets, in chunk order |
| Grouping.GetAllPacketSizes | user_io/output.py:177-203 | the sizes of exactly the interface's packets, in chunk order |
| Grouping.GeneratePacketDataPlots | user_io/output.py:205-222 | one series per interface, in first-occurrence order |
| Grouping.PacketPlotsPartition | user_io/output.py:205-222 | every packet of a chunk lands in exactly one interface series |
| CsvExport.ParseIntText | user_io/output.py:228-229 | `int` reads back the integer that `str` wrote into a line |
| CsvExport.TimestampLineRoundTrip | user_io/output.py:228-229 | a probe line splits on commas into its seven fields, in order, exactly when its text fields hold no comma |
| CsvExport.PacketLineRoundTrip | user_io/output.py:240-241 | a packet line splits on commas into its five fields, in order, exactly when its text fields hold no comma |
| CsvExport.NoneInterfaceAmbiguous | user_io/output.py:228-229 | a row without an interface and one whose interface is named `None` write the same line |
| CsvExport.WriteTimestampCsv | user_io/output.py:224-234 | the file `<path>TIMESTAMP<postfix>.csv` gets one line per row, chunk after chunk, in row order |
| CsvExport.WritePacketCsv | user_io/output.py:236-246 | the file `<path>PACKET<postfix>.csv` gets one line per packet, chunk after chunk, in order |
| Exporter.Generator.constructor | user_io/output.py:55-63 | no path yet, postfix "0", no anonymising, both plot flags clear and both graph lists empty |
| Exporter.Generator.StartNewPass | user_io/output.py:65-82 | the pass writes under `<path>\DUMP-<time>\` with an empty postfix when the folder was made, else under `<path>\` with the time as postfix; both graph lists are emptied and both flags cleared |
| Exporter.GraphNamesDistinct | user_io/output.py:280-287 | the graphs of one run go to pairwise distinct files |
| Exporter.Generator.GenerateTimestampGraph | user_io/output.py:248-289 | one `<path>TIMESTAMP<index><postfix>.jpg` per chunk with index 0, 1, ... appended in order, a pickle name per graph when dumping, and the flag set after the loop, also for no chunks; an empty chunk raises and stops the loop |
| Exporter.Generator.GeneratePacketGraph | user_io/output.py:291-335 | the same for packet chunks and `PACKET` names |
| Exporter.FeedUpToSpec | user_io/output.py:343-391 | after any number of chunks the flushed and open lines add up to the lines fed, the open count stays within the limit, and the flushed ranges are contiguous from line 1, each over 50000 lines |
| Exporter.PaginateRanges | user_io/output.py:343-391 | the documents of a run cover lines 1 to the total contiguously without overlap, every flushed one holds over 50000 lines, and a final one is written exactly when the last chunk did not flush |
| Exporter.SmallRunOneDocument | user_io/output.py:343-391 | a run of at most 50000 lines is one document |
| Exporter.LimitPlusOneIsOneDocument | user_io/output.py:364-377 | 50,001 lines whose last chunk has lines give a single document |
| Exporter.NoChunksOneEmptyDocument | user_io/output.py:383-391 | with no chunks, one document for the empty range 1..0 is written |
| Exporter.CountLines | user_io/output.py:356-363 | one PDF line per point of every series |
| Exporter.TimestampChunkLines | user_io/output.py:353-363 | a probe chunk contributes one PDF line per row |
| Exporter.PacketChunkLines | user_io/output.py:403-413 | a packet chunk contributes one PDF line per packet |
| Exporter.TimestampChunkPlotted | user_io/output.py:353-356 | a probe chunk has at least one series exactly when it has rows |
| Exporter.PacketChunkPlotted | user_io/output.py:403-406 | a packet chunk has at least one series exactly when it has packets |
| Exporter.Generator.GenerateTimestampPdf | user_io/output.py:343-391 | the documents written are the pagination of the chunk lengths, named `<path>TIMESTAMP<postfix>_<first>_<last>.pdf` |
| Exporter.Generator.GeneratePacketPdf | user_io/output.py:393-441 | the same for packets, named with `PACKET` |
| ExporterSnapshot.Generator.constructor | output.py:44-52 | no path, postfix 0, no plot count yet, both flags clear and both graph lists empty |
| ExporterSnapshot.Generator.StartNewPass | output.py:54-62 | path `<path>\`, the current second as postfix, plot count 0, both flags clear and both lists empty |
| ExporterSnapshot.Generator.GenerateTimestampCsv | output.py:204-211 | `<path>TIMESTAMP<postfix>.csv` gets one line per row, chunk after chunk, in the newer file's field layout |
| ExporterSnapshot.Generator.GeneratePacketCsv | output.py:213-220 | `<path>PACKET<postfix>.csv` gets one line per packet in chunk-then-packet order |
| ExporterSnapshot.Generator.GenerateTimestampGraph | output.py:222-258 | one `TIMESTAMP<index><postfix>.jpg` name per chunk with increasing index, then the flag set; an empty chunk raises |
| ExporterSnapshot.Generator.GeneratePacketGraph | output.py:260-298 | the same for packet chunks |
| ExporterSnapshot.Generator.GeneratePdfOrOnefile | output.py:300-312 | the PDF and one-file methods change nothing |
| NetTest.NewTester | net_test/nettest.py:20-35 | construction fails with the mismatch error exactly when the two target lists differ in length; otherwise the history holds one 0 per target and nothing is stored |
| NetTest.StabilityTester.constructor | net_test/nettest.py:20-35 | the tester keeps the targets, labels and source address, with one 0 of history per target |
| NetTest.StabilityTester.LoopServers | net_test/nettest.py:53-92 | one probe per target in index order and no outcome ends the sweep; the history, the rows stored, the stamps sent, the printed variations and the pauses are those of the sweep's outcomes |
| NetTest.SweepHistoryAt | net_test/nettest.py:73 | a sweep changes a target's history only by probing it, and only on a reply, to that reply's latency |
| NetTest.OutcomeCounts | net_test/nettest.py:57-92 | every probe has exactly one of the four outcomes |
| NetTest.StabilityTester.SweepRecordCount | net_test/nettest.py:63-80 | a sweep stores one row per reply and per timeout, and the rows marked dead are the timeouts |
| NetTest.StabilityTester.SweepRecordFields | net_test/nettest.py:63-80 | every stored row comes from one probed target: it carries the tester's `UPPER_LIMIT`, the source address, that target and its label, and either the target's reply latency and time, live, or 0 ms and the timeout's time, dead |
| NetTest.StabilityTester.SweepRecordsStored | net_test/nettest.py:63-80 | every reply and every timeout of the sweep is stored as that row |
| NetTest.StabilityTester.SweepSideEffectCount | net_test/nettest.py:67-92 | every outcome but another failure sends a stamp, every outcome but a timeout pauses, and only replies print a variation |
| NetTest.StabilityTester.SweepVariationsDeltas | net_test/nettest.py:69-73 | the printed variations are each replying target's latency minus its previous history entry, in order |
| NetTest.RunHistoryLastReply | net_test/nettest.py:41-51 | after any number of sweeps each target's history is its last reply, or its initial value if it never replied |
| NetTest.StabilityTester.PingWithEvent | net_test/nettest.py:41-45 | sweeps run until the event reads set before a sweep, never stopping mid-sweep, and the state is that of the sweeps run |
| NetTest.StabilityTester.PingWithEventCounter | net_test/nettest.py:47-51 | at most `c` sweeps, stopping early only when the event reads set before a sweep |
| Capture.NoFilterKeepsAll | net_test/sniffer.py:30-35 | without a filter every packet is stored, as sender = source, receiver = destination, the readable interface and the IP length |
| Capture.FilterOnlyAdmitted | net_test/sniffer.py:31-33 | with a filter every stored row has its sender or receiver on the filter |
| Capture.PersistedCount | net_test/sniffer.py:31-35 | exactly one row per packet the filter admits |
| Capture.Sniffer.constructor | net_test/sniffer.py:13-19 | the sniffer keeps the interface, its readable name and the packet bound, and has stored nothing |
| Capture.Sniffer.StartSniffing | net_test/sniffer.py:21-27 | in both branches the capture filters `ip` on the interface, hands each packet to `process_packet`, stops once the event is set, and stores nothing; it gets a count only when the bound is finite |
| Capture.CaptureStopsOnEvent | net_test/sniffer.py:21-27 | with the event as stop filter, no packet is handed over after the first one at which the event reads set, never more than a positive count, and the capture ends early only at such a packet or at the count |
| Capture.Sniffer.ProcessPacket | net_test/sniffer.py:30-35 | the packet's row is appended when the filter admits it, and nothing otherwise |
| Capture.GetInterfaceIpList | net_test/sniffer.py:43-50 | one address per interface name, in the same order |
| Text.ToUpper | user_io/flag_handler.py:199 | upper-casing keeps the length and maps each character |
| Text.SplitJoin | user_io/flag_handler.py:153 | splitting on commas loses nothing and gives one piece more than there are commas |
| Text.JoinPieces | user_io/flag_handler.py:153 | a comma-joined list splits back into its parts exactly when no part holds a comma |
| Text.ParseIntOfNatToString | user_io/output.py:228-229 | `int(str(n)) == n` |
| FlagChecks.ArgHasValue | user_io/flag_handler.py:130-150 | succeeds exactly when position `index + offset` exists and the type and value checks pass; a missing position is `InvalidLengthError`, a failed check `InvalidValueError` with that value |
| FlagChecks.ArgIsCommaSeparatedList | user_io/flag_handler.py:152-156 | true exactly when the comma split has `length` pieces, otherwise `InvalidValueError` |
| FlagChecks.CommaListOfJoin | user_io/flag_handler.py:152-156 | a list written out with commas passes the check for its own length exactly when no item holds a comma |
| FlagChecks.ArgSanityCheck | user_io/flag_handler.py:158-162 | succeeds exactly when the predicate holds; a false predicate is `InvalidValueError`, and the predicate's own error propagates |
| FlagChecks.PositiveInt | user_io/flag_handler.py:182-183 | `int(x) > 0`, raising for text that is not an integer |
| FlagChecks.DateLengthOk | user_io/flag_handler.py:185-186 | one to six comma-separated parts |
| FlagChecks.ParseAll | user_io/flag_handler.py:167-168 | every part converts with `int`, in order, or the first part that does not is reported |
| FlagChecks.ConvertListDatetime | user_io/flag_handler.py:165-179 | any length other than one to five parts is `InvalidFormatException` |
| FlagChecks.ConvertListDatetimeFields | user_io/flag_handler.py:165-179 | one to five integer parts give the date whose leading fields are those parts and whose missing fields are month 1, day 1, hour 0, minute 0, second 0 |
| FlagChecks.SixPartDateRejected | user_io/flag_handler.py:170-176 | the full six-part form is rejected |
| Flags.ValueFlag | user_io/flag_handler.py:209-322 | a flag that takes a value consumes exactly one following argument (`-save` two) when it succeeds |
| Flags.HandleArg | user_io/flag_handler.py:197-322 | an unknown argument is either a pickle file, which is collected without advancing `index`, or `InvalidFlagError`; on success the argument consumes its flag's count of followers; `-kalm` sets the drop threshold to 10000 |
| Flags.HandleArgCaseInsensitive | user_io/flag_handler.py:199-207 | two spellings of a flag that differ only in letter case are handled alike |
| Flags.ArgvZeroIgnored | user_io/flag_handler.py:188-195 | the first argument, the script path, has no effect on the parse |
| Flags.SaveChecksOnlyStartDate | user_io/flag_handler.py:248-265 | `-save` succeeds exactly when two arguments follow and the start date has at most six parts; then both dates are stored split and the flag is set |
| Flags.DataValueReadFirst | user_io/flag_handler.py:237-246 | a `-data` without a value is an `IndexError`, where `-c` without one is `InvalidLengthError` |
| Flags.SingleValueFlagStores | user_io/flag_handler.py:209-319 | `-i`, `-l`, `-t`, `-f`, `-c`, `-o` and `-relaxed` succeed exactly when the value is there and converts to the flag's type; each then sets only its own setting (for `-o` also the output flag) to the converted value and skips one argument; a missing value is `InvalidLengthError`, a bad one `InvalidValueError` |
| Flags.DataFlagStores | user_io/flag_handler.py:237-246 | `-data` succeeds exactly when its value is an integer above 0, then sets the data chunk and marks it found; a non-integer raises `ValueError`, a value not above 0 `InvalidValueError` |
| Flags.RecordsFlagStores | user_io/flag_handler.py:267-278 | `-records` succeeds exactly when its value is there with one to six parts, then stores the split value and sets the records flag |
| Flags.LoopFlagReadsNextArgument | user_io/flag_handler.py:214-217 | `-l 5` after the script path sets the loop count to 5 |
| Flags.PickleShiftsValues | user_io/flag_handler.py:200-205 | after a pickle file, `-l 5` reads `-l` as its value and fails |
| Flags.CmdHandler.constructor | user_io/flag_handler.py:91-128 | the defaults: no interface, unbounded loop and packet counts, one-second sleep, threshold 1, data chunk 10000, every flag clear, no pickles and no exceptions |
| Flags.CmdHandler.ParseSysArgs | user_io/flag_handler.py:181-326 | the settings after the parse, and the first exception appended, after which no argument is handled |
| Flags.Rule | user_io/flag_handler.py:343-346 | a rule reports its error exactly when it is broken |
| Flags.RecordsPhase | user_io/flag_handler.py:330-336 | without `-records` nothing changes and nothing is raised |
| Flags.PostRecords | user_io/flag_handler.py:330-336 | the records type becomes the number of parts; a conversion that succeeds stores the date; a part count outside one to five raises out of `post_processing` |
| Flags.SaveDatesErrors | user_io/flag_handler.py:368-389 | the `-save` dates step adds at most one error, a conversion or order error, and never reports a flag rule |
| Flags.Position | user_io/flag_handler.py:439-446 | the first position holding the address, or none |
| Flags.FindPosition | user_io/flag_handler.py:439-446 | the search loop stops at the first position holding the address, or reports none, as `Position` describes |
| Flags.InterfacePhase | user_io/flag_handler.py:436-454 | the lookup adds nothing or the unknown-address error, and an `IndexError` adds nothing |
| Flags.PostInterfaceLookup | user_io/flag_handler.py:436-454 | an address not in the list is reported; at its first position the readable name is the name there, or `IndexError` when the name list is too short |
| Flags.UnknownOnlyFromLookup | user_io/flag_handler.py:436-454 | the unknown-address error is reported exactly when the lookup reports it |
| Flags.EarlyRulesExact | user_io/flag_handler.py:338-366 | the first group reports exactly its broken rules |
| Flags.SaveNeededRulesExact | user_io/flag_handler.py:401-423 | the rules that need `-save` or `-graph` report exactly the broken ones |
| Flags.ModeRulesExact | user_io/flag_handler.py:425-434 | the mode rules report exactly the broken ones |
| Flags.SignRulesExact | user_io/flag_handler.py:456-477 | the sign rules report exactly the broken ones |
| Flags.MiddleRulesExact | user_io/flag_handler.py:391-434 | the rules between the dates and the lookup report exactly the broken ones |
| Flags.LateRulesExact | user_io/flag_handler.py:456-484 | the rules after the lookup report exactly the broken ones |
| Flags.GroupsApart | user_io/flag_handler.py:328-484 | no group reports another group's rules |
| Flags.PostRulesBeforeLookup | user_io/flag_handler.py:338-434 | when the `-records` step does not raise, each rule checked before the lookup is reported exactly when the flags break it |
| Flags.PostRulesAfterLookup | user_io/flag_handler.py:456-484 | when nothing escapes, each rule checked after the lookup is reported exactly when the flags break it |
| Flags.SpecifierReportedTwice | user_io/flag_handler.py:391-399 | `-o` with an output specifier and no `-save` is reported twice, once as `-o` without `-save` |
| Flags.CmdHandler.PostProcessing | user_io/flag_handler.py:328-484 | only appends to the exceptions, in the order the checks run; the settings and the escaping exception are those of the model of `post_processing` |
| Flags.Lookup | user_io/flag_handler.py:436-454 | the lookup yields the readable name, the unknown-interface error or `IndexError`, exactly as `InterfacePhase` describes |
| Flags.CmdHandler.LookupInterface | user_io/flag_handler.py:436-454 | the linear search gives the lookup's readable name, error or `IndexError` |
| FlagsSnapshot.Defaults | flag_handler.py:60-74 | the defaults: no interface, unbounded loop count, sleep 1, threshold 1, every flag false and every path and filter none |
| FlagsSnapshot.HandleArg | flag_handler.py:118-171 | an argument outside the valid flags is `InvalidFlagError`; on success exactly `-i`, `-l`, `-t`, `-f`, `-save`, `-o` and `-relaxed` skip one argument, `-save` sets the shared flag, and `-sniff` sets sniffing |
| FlagsSnapshot.ScriptPathRejected | flag_handler.py:109-121 | a script path as `argv[0]` is rejected |
| FlagsSnapshot.GraphRejected | flag_handler.py:49-51 | `-graph` is rejected |
| FlagsSnapshot.TwoLetterFlag | flag_handler.py:118-123 | a two-letter flag is `-` and the letter in either case |
| FlagsSnapshot.LoopFlagAlwaysFails | flag_handler.py:128-131 | `-l` always fails: on the flag's own letter, or past its text |
| FlagsSnapshot.SleepFlagAlwaysFails | flag_handler.py:133-136 | `-t` always fails the same way |
| FlagsSnapshot.InterfaceFromFlagText | flag_handler.py:123-126 | `-i` at position 0 stores its own second letter as the interface, anywhere else it fails past the flag's text |
| FlagsSnapshot.ParseValues | flag_handler.py:106-173 | a parse never changes the loop count or sleep time, and the interface and filter are unchanged or a letter of their flag |
| FlagsSnapshot.ParseKeepsSaveFound | flag_handler.py:146-149 | once set, the shared save flag stays set |
| FlagsSnapshot.InterfaceTakenFromFlag | flag_handler.py:106-173 | `-sniff -i 10.0.0.1` sets sniffing and the interface `i`, and raises nothing |
| FlagsSnapshot.HandlerClass.constructor | flag_handler.py:52 | the class-level save flag starts clear |
| FlagsSnapshot.CmdHandler.constructor | flag_handler.py:60-74 | a new handler has the default settings and shares the class-level flag |
| FlagsSnapshot.CmdHandler.ParseSysArgs | flag_handler.py:106-173 | the settings, the shared save flag and the error raised are those of the model of `parseSysArgs` |

## Left out

- Drawing: pygame drawing, fonts, pixel mapping (`map_x_to_plot`,
  `map_y_to_plot`), `draw_axes`, `draw_misc`, `draw_text` and the
  dead-percentage display are not modelled. They are screen output only.
  `DrawStamps` models only which entries are read.
- The event loop, `StartScene`, `TrafficScene` and the pygame engine are not
  modelled; they are user-interface code.
- Plotting and documents: matplotlib, fpdf and pickle are not modelled. A
  graph is the file name recorded; a PDF is the line range and file name it
  gets. `os.mkdir` and `time()` are parameters (`madeDir`, `now`).
- The packet y-axis bound (the float average at user_io/output.py:177-203)
  is not modelled, because it is float arithmetic. The packet series carry
  the sizes and times.
- `strftime` and `str()` of a date are not modelled. A CSV line takes a
  function rendering the timestamp, assumed comma-free in the round-trip
  lemmas.
- The x/y formatter callbacks of `generate_*_data_plot_obj_from` are not
  modelled; the exporters never pass them.
- `generate_onefile` and `generate_onefile_verbose` of user_io/output.py are
  not modelled: they are empty.
- `open_saved_pickles` and `close` are not modelled: they unpickle files, or
  do nothing.
- Probing and capture: ping3, scapy `sniff`, `get_if_list`, `get_if_addr` and
  the `servers.json` read are not modelled. Probe outcomes and addresses are
  inputs.
- The ping's float latency is not modelled. The model receives the latency
  already truncated to whole milliseconds, and models sleeps in whole
  milliseconds.
- `ping_forever` is not modelled: it is an endless loop of the sweep
  `LoopServers` models.
- Threads, `Event` objects and `KeyboardInterrupt` handling are not modelled.
  The event is a function from the sweep number to whether it reads set.
- `print` output is not modelled, except the latency variation, which the
  sweep returns.
- The store (peewee over SQLite) is not modelled: writes append to a
  sequence. The chunked and offset queries are inputs: chunks of rows for the
  exporters, and a pull function for the live chart.
- Calendar validity inside `datetime(...)` is not modelled, and neither is
  the end-after-start comparison: the latter is a parameter `later`.
- `FOUND_SPECIAL_FLAGS` and `FOUND_ONE_FILE_OUTPUT_FLAGS_FLAGS` of
  flag_handler.py are not modelled: they are never read.
- The exception message texts are not modelled; each exception is its kind
  and the flag and value it carries.
- Text.ToUpper: upper-cases ASCII letters only. Python's `str.upper` also
  maps a few non-ASCII letters onto ASCII ones (`'ı'` to `'I'`, `'ſ'` to
  `'S'`), so the program accepts `-ı`, `-ſave`, `-ſniff` or `-pıckle` as `-I`,
  `-SAVE`, `-SNIFF` or `-PICKLE`, where the model does not.
- Flags.HandleArg and FlagsSnapshot.HandleArg: reject with `InvalidFlagError`
  a non-ASCII argument whose Python upper-case spells a flag, such as `-ı`,
  which the program accepts.
- FlagsSnapshot.TwoLetterFlag and FlagsSnapshot.InterfaceFromFlagText: speak
  only of arguments that upper-case to the flag in the model, so the letter
  `ı` the older handler stores for `-ı` is not covered.
- Text.ParseInt: admits an optional sign and ASCII digits only. Python's
  `int()` also accepts surrounding whitespace (`" 5"`), underscores between
  digits (`"1_000"`) and non-ASCII decimal digits, which the model rejects.
- Text.ParseReal: admits an optional sign and ASCII digits with at most one
  decimal point only. Python's `float()` also accepts surrounding
  whitespace, underscores, exponents (`"1e3"`), `"inf"`, `"infinity"` and
  `"nan"`, which the model rejects.
- FlagChecks.ArgHasValue, FlagChecks.PositiveInt, FlagChecks.ParseAll and
  FlagChecks.ConvertListDatetime inherit those two grammars, and through them
  Flags.Store, Flags.HandleArg, Flags.SingleValueFlagStores and
  Flags.DataFlagStores: `-t 1e3` sets the sleep time to 1000.0 in the program
  but raises `InvalidValueError` in the model, and `-l 1_000`, `-data " 5"`
  or a date part `" 1"` diverge the same way.
- FlagsSnapshot.ParseValues: states what the older parse cannot do to the
  values rather than every field. `-l` and `-t` can never succeed there, so
  no stronger statement about them exists.
