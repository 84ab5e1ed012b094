# Verified model of the telemetry engine

A Dafny 4.11 model of the parts of the telemetry engine that move data and can lose it, count it twice or
miscount it, with proofs of what those parts promise. `dafny verify dfyconfig.toml` checks the whole project.

| files | what they model |
|---|---|
| `Timeline`, `Calendar`, `Text`, `Layout` | naive UTC time in microseconds, dates, and the lake's file names, which carry the windows |
| `Planner`, `ExportCore`, `ValueCheck`, `Exporter` | cutting time into export windows, verifying one staged file, what a verified file has in common with the source, and the exporter as a class that updates lake, staging area and watermark table in place |
| `Protocol`, `NoLoss`, `NoDuplicates`, `OnceOnly`, `Schedule`, `ProtocolRuns`, `LiveExport`, `Witnesses` | the export protocol as a state machine over every interleaving of arrivals, clock ticks, TTL deletions, background merges, export actions and crashes; the theorems over all its runs; the exporter's own run as one of them, alone and while the engine goes on; exactly when a run may start and how often one must; and runs showing that each hypothesis is needed |
| `Rewind`, `WatermarkMigration` | exporting again after the watermark was moved back, and the migration that replaces the watermark table, cut off anywhere |
| `Rollup`, `Buckets`, `Backfill`, `BackfillCommand`, `BackfillRuns` | insert blocks grouped into mergeable aggregate states, merged in the background and cascaded from minute to hour; which spans each clock minute and hour stands for; what the backfill command fills; filling in old data in chunks, also while inserts and merges go on |
| `Cardinality`, `RowBound`, `TopK` | the dimension registry, the allowlist, the three-way guard, the bound on rollup keys and when it is attained, and the election of the allowed values |
| `Pacing`, `TargetIntegral`, `RateIntegral`, `LoadShortfall`, `Trace`, `RealArithmetic` | the token bucket and the worker loop, the target rate, its one-second sum and its integral in closed form, what a worker emits against the target it reports, and the drawing and emission of traces in whole nanoseconds |
| `Migrations`, `Quiesce` | the migration runner under crashes, and the wait for a quiet pipeline |

Conventions. A duration is a whole number of microseconds and an instant counts them from 1 January of year 1.
Floats are reals. A `uniq` state is the set of values seen, an `avg` state a sum and a count, a quantile digest
the multiset of readings it absorbed. The watermark table is a log of which `FINAL` reads the maximum, and
merges may drop any dominated row at any time. What a query, a stream, a clock or a random draw returns is a
parameter. A method of a class is specified by a function of the old state, and the lemmas are about that function.

## Where the code promises less than its documentation

Each of these is proved, with the exact condition under which the promise does hold.

- A window that counts rows but streams none is skipped, and the watermark passes it
  (`Witnesses.EmptyStreamLosesARow`). An ok result can be relied on exactly when that did not happen
  (`ExportCore.OkIsSafeExactly`); the no-loss theorems assume that it does not.
- "A retry overwrites" holds exactly for windows that end on the hour (`Planner.RetryPlansTheSameWindow`,
  `ProtocolRuns.LeftBehindFileIsPlannedAgain`). After a crash behind the rename of any other window, some later run, one
  that starts a second after the crash, say, puts the rows that are still hot in the lake twice
  (`Witnesses.CrashOffTheHourDuplicates`; a run from the start is `Witnesses.ClippedCrashDuplicatesARow`). In the very
  first window the oldest row must also still be in the same second (`ProtocolRuns.RestartBeginsAtTheFileExactly`), which
  a late arrival can undo (`Witnesses.FirstCrashDuplicatesARow`). Whatever crashes have left behind, a run that starts is
  harmless exactly when no row of a window it plans is in the table and in other files together more often than it arrived
  (`OnceOnly.StartIsHarmlessExactly`).
- A run resumes where the last one stopped exactly unless that one completed a window that ends within a second: the
  watermark is cut to the second, and the rest of that second is planned, and may be exported, again
  (`Exporter.PlanResumes`, `Exporter.RunsCompose`).
- The counts and fingerprints do not notice every loss if the TTL deletes streamed rows before the fingerprint
  (`Witnesses.ExpiryDuringExportLosesARow`). A committed file is everything the table held when it was streamed exactly
  when that was as many rows as were counted (`ExportCore.CommitIsTheStreamedTableExactly`), so a loss takes a row that
  arrives late, between count and stream (`NoLoss.OnlyLateArrivalsOutrunTheStream`), and then a deletion of a streamed row
  of which no copy is left. An exporter that its health report calls safe meets no such deletion.
- The health report can be relied on exactly when 0.75 of the TTL in the settings is less than the 48 hours that the
  schema fixes (`Witnesses.CleanReportsSufficeExactly`; `Witnesses.LateWarningLosesARow` for any other setting).
- The documentation does not say how often the exporter must run. Nothing is lost exactly when the longest gap between complete runs and
  the lag margin, each taken up to the second, are together less than the schema's TTL (`Schedule.RunsOftenEnoughExactly`).
- Exporting again after a rewind overwrites exactly when every old file above the new watermark is one that the plan
  produces again (`Rewind.RewindOverwritesExactly`); otherwise rows are duplicated (`Rewind.RewindDuplicates`). What it
  overwrites it replaces by what the table still holds (`Rewind.RewindReplacesExactly`).
- The migration that replaces the watermark table can be cut off and run again anywhere but between its drop and its
  rename (`WatermarkMigration.HighestSurvivesExactly`).
- One calendar day per file is the planner's doing: the window's constructor also accepts several days that end at
  midnight (`Planner.ConstructorAcceptsExactly`, and `Planner.ConstructorAcceptsSeveralDays` for one such window).
- A backfill that failed half way can be resumed by running the command again only if the chunks it completed held
  no rows at all (`Backfill.InterruptedBackfillLeavesAGap`); and on an empty rollup a complete backfill still misses
  the newest raw timestamp (`Backfill.EmptyRollupMissesTheNewest`). While inserts go on, it counts every span once
  exactly as long as no chunk passes a span that arrived in the part still to be processed
  (`BackfillRuns.CountsOnceExactly`).
- A top-K dimension, and with it the number of rollup rows, can outgrow its budget when it is synchronised again, because
  values are never removed (`Cardinality.ResyncAddsUp`, `RowBound.ResyncOutgrowsTheBound`); the bound on rows holds for
  all traffic exactly when the allowlist itself is within it (`RowBound.RowsStayWithinBudgetExactly`).
- For a ramp the one-second sum is within half the climb of the true integral for every run length exactly when the ramp
  lasts a whole number of seconds, or does not climb (`RateIntegral.RampErrorExactly`, `RateIntegral.HalfSecondRamp`).
- A dry run of the migrations predicts what a real run applies exactly when no file has drifted, because it lists drifted
  files as pending (`Migrations.DryRunPredicts`).

## Model

| member | source | states |
|---|---|---|
| Planner.PlanWindows | src/telemetry_engine/coldtier/export.py:225-265 | The planning loop terminates for every window length and returns the recursive plan; the constructor never raises inside it. |
| Planner.PlanTiles | src/telemetry_engine/coldtier/export.py:225-265 | Below the horizon the plan tiles exactly [start, horizon) if and only if the window length is positive; otherwise the defensive exit leaves it empty. |
| Planner.TilesCoverOnce | src/telemetry_engine/coldtier/export.py:236-245 | In a tiling every instant of the range is in exactly one window: no gap, no overlap. |
| Planner.PlannedWindows | src/telemetry_engine/coldtier/export.py:247-265 | Every planned window lies in one calendar day, is accepted by the constructor, is no longer than asked, and ends on the hour unless the horizon cut it or windows are shorter than an hour. |
| Planner.WindowsAreLongest | src/telemetry_engine/coldtier/export.py:247-262 | Every window ends at the last full hour within the window length of its start, or, when there is none, exactly that length after it, unless midnight or the horizon comes first. |
| Planner.ReplanFromWindow | src/telemetry_engine/coldtier/export.py:225-265 | Planning from the end of window i with the same horizon yields exactly the remaining windows. |
| Planner.WindowSurvivesLaterHorizon | src/telemetry_engine/coldtier/export.py:250-262 | A later horizon keeps a window if and only if the old one did not clip it. |
| Planner.UnclippedWindowsAreStable | src/telemetry_engine/coldtier/export.py:225-265 | Every window that ends below the old horizon keeps its place, with all windows before it, in a plan with a later horizon. |
| Planner.RetryPlansTheSameWindow | src/telemetry_engine/coldtier/export.py:477-486 | A retry under a later horizon plans the same window, hence the same file, if and only if it ends on the hour or the horizon did not move. |
| Planner.ConstructorAcceptsExactly | src/telemetry_engine/coldtier/layout.py:60-70 | The constructor accepts the nonempty windows of one day and those of any length that end at midnight; an accepted window is one day if and only if it ends by the next midnight. |
| Layout.NameRoundTrip | src/telemetry_engine/coldtier/layout.py:76-85 | `parse_window` recovers a window from its own file name if and only if both ends are whole seconds. |
| Layout.ParseOwnName | src/telemetry_engine/coldtier/layout.py:112-120 | What parsing a window's own name gives in every case: the window cut to whole seconds, or the exception of an empty or multi-day one. |
| Layout.ParsedNameIsFilename | src/telemetry_engine/coldtier/layout.py:112-120 | Any name that parses is the file name of the window it parses to. |
| Layout.ParseOutcomes | src/telemetry_engine/coldtier/layout.py:112-120 | A name holds no window if and only if it is not two stamps in their frame; one that is and shows an impossible date or time raises instead. |
| Layout.StampReadsBack | src/telemetry_engine/coldtier/layout.py:47-50 | A stamp, field by field through the calendar, reads back as the instant it shows. |
| Layout.PartitionParses | src/telemetry_engine/coldtier/layout.py:88-109 | `parse_partition` inverts the `dt=` directory, whose date is the full-date of section 5.6 of RFC 3339. |
| Layout.ParsedPartitionIsDir | src/telemetry_engine/coldtier/layout.py:106-109 | A directory name that parses is the one of the date it parses to, and one is no partition if and only if it has not the form of a date. |
| Layout.PathNamesItsDay | src/telemetry_engine/coldtier/layout.py:88-93 | The directory of a window's file parses to the day in which the window starts, and so to the day of every instant of a one-day window. |
| Layout.PathOrder | src/telemetry_engine/coldtier/layout.py:76-93 | Lake paths sort as strings exactly as windows sort by (start, end), and two windows share a path exactly when they agree to the second. |
| Layout.ListingIsChronological | src/telemetry_engine/coldtier/layout.py:123-134 | A sorted listing of window files is in chronological order. |
| Layout.CommittedFilesAreListed | src/telemetry_engine/coldtier/layout.py:123-134 | Every committed file is listed. |
| Layout.ListedExactly | src/telemetry_engine/coldtier/layout.py:123-134 | A file is listed if and only if its directory is a partition and its name ends in `.parquet`: the other filters exclude nothing more. |
| Layout.StagingFilesAreNot | src/telemetry_engine/coldtier/layout.py:96-103 | A staging file is neither listed nor parsed as a window, though it lies beside its final name. |
| Calendar.DateOfDayNumber | src/telemetry_engine/coldtier/layout.py:72-74 | Counting days forward and the closed form of the Gregorian day number are inverse to each other. |
| Calendar.DayNumberOrders | src/telemetry_engine/coldtier/layout.py:72-74 | Dates are ordered as their day numbers, so partitions are ordered as days. |
| Calendar.CalendarIsGregorian | src/telemetry_engine/coldtier/layout.py:72-74 | Day 0 is 1 January of year 1, each year is as long as the Gregorian rule says, and each month begins as many days into it as the month lengths add up to. |
| ExportCore.PermutationKeepsFingerprint | src/telemetry_engine/coldtier/export.py:280-332 | The scan order of either engine never shows in a fingerprint. |
| ExportCore.CommitIsFaithful | src/telemetry_engine/coldtier/export.py:410-487 | If rows were only added between count, stream and fingerprint and the attempt commits, the file holds exactly the window's rows, and the window held the same rows at all three moments. |
| ExportCore.CommitsExactlyWhenComplete | src/telemetry_engine/coldtier/export.py:410-487 | On a source that does not change an attempt commits if and only if the source has rows and the staged file is complete; it is ok in one more case, when the window or its stream was empty. |
| ExportCore.OkIsSafeExactly | src/telemetry_engine/coldtier/export.py:443-447 | An ok result means that the window's rows are in the lake, or that there were none, if and only if it is not the case that rows were counted and none was streamed. |
| ExportCore.CommitIsTheStreamedTableExactly | src/telemetry_engine/coldtier/export.py:335-349 | Whatever is inserted or deleted between the reads, a committed file is everything the table held when it was streamed if and only if it then held as many rows as were counted. |
| ExportCore.CommittedFileIsTheSortedStream | src/telemetry_engine/coldtier/export.py:385-407 | A committed file is the server's sorted stream, row for row, and sorted from end to end by tenant and then by time. |
| Text.LexLessMeans | src/telemetry_engine/coldtier/export.py:385-407 | The order of tenants is that of the first character in which they differ, or of length when one begins the other. |
| ValueCheck.VerdictExactly | src/telemetry_engine/coldtier/export.py:335-487 | Whatever stream and disk did to the rows, an attempt that is not skipped commits if and only if as many rows were counted, streamed and read back, and file and scan agree in both token sums, in the numbers of rows, tenants and traces, and in summed duration within one millisecond or a millionth. |
| ValueCheck.ChangedTokensAreNoticed | src/telemetry_engine/coldtier/export.py:335-349 | A file that differs from the scan in one row's input tokens, or one row's output tokens, is never committed, in whatever order its rows come. |
| Exporter.ColdStore.ExportWindow | src/telemetry_engine/coldtier/export.py:410-487 | One attempt in place: lake, staging area and result in every branch; the lake changes only by a commit, and only at this window's file, which then holds what was read back. |
| Exporter.ColdStore.ExportInOrder | src/telemetry_engine/coldtier/export.py:527-539 | Lake and watermark advance together, one window at a time, and stop for good at the first result that is not ok. |
| Exporter.ColdStore.RunExport | src/telemetry_engine/coldtier/export.py:489-539 | A whole run, with rewind and default start, has exactly the effect of the run function; with a limit n it attempts the first n windows of the whole plan, with a negative one all but the last n, in order and up to the first result that is not ok. |
| Exporter.LimitTakes | src/telemetry_engine/coldtier/export.py:523-525 | A limited plan is the whole plan's front of that many windows, or without a limit the whole plan. |
| Exporter.ColdStore.RewindWatermark | src/telemetry_engine/coldtier/export.py:199-216 | A rewind leaves the given instant as the only, and so the highest, watermark. |
| Exporter.HighestIsTheMaximum | schemas/clickhouse/140_cold_watermark_version.sql:16-27 | The watermark read is the maximum of all rows written. |
| Exporter.MergeKeepsWatermark | schemas/clickhouse/140_cold_watermark_version.sql:16-27 | No background merge of the watermark table ever changes what is read. |
| Exporter.WatermarkAfter | src/telemetry_engine/coldtier/export.py:173-196 | After k completed windows the watermark read is the end of the last, cut to the second. |
| Exporter.PlanResumes | src/telemetry_engine/coldtier/export.py:516-526 | A run that starts over from the watermark plans exactly what is left of the interrupted plan if and only if the last window completed ends on a whole second; any other is the clipped one, and the rest of its second is planned again. |
| Exporter.RunsCompose | src/telemetry_engine/coldtier/export.py:516-537 | However a run was cut short, by limit or by a halt, and whatever a second run with the same horizon then observes, the two leave the store of one full run that observes what the first did up to the first window not completed and what the second did from there, if and only if the last window completed ends on a whole second or the second run completes nothing. |
| Protocol.HealthyExpiryIsBelow | src/telemetry_engine/coldtier/export.py:545-586 | When 0.75 of the TTL in the settings is less than 48 hours, a clean health report implies, in every state, that a row the schema's TTL may delete lies below the watermark. |
| Protocol.DisjointFilesHoldOnce | src/telemetry_engine/coldtier/export.py:477-486 | Files that cover disjoint ranges hold a row no more often than one of them may. |
| NoLoss.StepKeeps | src/telemetry_engine/coldtier/export.py:410-539 | Every step of exporter and environment keeps the coverage invariant. |
| NoLoss.OnlyLateArrivalsOutrunTheStream | src/telemetry_engine/coldtier/export.py:447-470 | When the window holds no more rows at the stream than were counted, so none that arrived in between, the stream has brought every row that is owed, or too few for the attempt to commit. |
| NoLoss.VerifiedFileIsComplete | src/telemetry_engine/coldtier/export.py:447-470 | A verified file is the stream, row for row, with as many rows as were counted; it holds every row the window owes if and only if the stream brought them, which it did or else the file is the table's window as it is. |
| NoLoss.WatermarkCovers | src/telemetry_engine/coldtier/export.py:165-196 | Over every interleaving in which a window that holds rows streams some, and the TTL takes the last copy of a streamed row only when the stream has kept up, a row that arrived within the lag margin and lies below the watermark is in one file below the watermark as often as it arrived, unless the TTL removed it before the watermark passed it. |
| NoLoss.NothingIsLost | src/telemetry_engine/coldtier/export.py:545-586 | In every run that is healthy whenever the TTL strikes, every row that arrived within the lag margin is at all times still hot as often as it did, or in one file below the watermark as often. |
| NoDuplicates.StepKeepsTidy | src/telemetry_engine/coldtier/export.py:477-537 | Every step keeps files sound, disjoint and placed at or below the watermark, but for at most one. |
| NoDuplicates.LeftoverIsPlannedAgain | src/telemetry_engine/coldtier/export.py:516-526 | The run after a crash begins with the very window whose file was left behind if and only if that file ends on the hour or at the horizon, and, without a watermark, the oldest row is in the file's first second. |
| NoDuplicates.NothingIsDuplicated | src/telemetry_engine/coldtier/export.py:477-537 | Over every interleaving in which no run that plans anything finds a file above the watermark but that of its first window, files are disjoint, two files not below the watermark are the same one, and no row is in the lake more often than it arrived. |
| OnceOnly.NoRowIsFiledTwice | src/telemetry_engine/coldtier/export.py:477-537 | Over every interleaving, crashes anywhere, in which each run that starts would file no row once too often from table and lake as it finds them, no row is in the lake more often than it arrived. |
| OnceOnly.StartIsHarmlessExactly | src/telemetry_engine/coldtier/export.py:477-537 | With a whole-second lag margin, after any such run, every continuation of a further start files each row at most as often as it arrived if and only if that start meets the condition too. |
| OnceOnly.RestartAtTheFileSpares | src/telemetry_engine/coldtier/export.py:516-526 | A start that finds no file above the watermark but that of its first window meets it. |
| OnceOnly.LakeIsAnExactCopy | src/telemetry_engine/coldtier/export.py:3-23 | In health, with starts that meet the condition and every row on time, the lake holds each row below the watermark exactly as often as it arrived. |
| Schedule.RunsOftenEnoughExactly | src/telemetry_engine/coldtier/export.py:489-539 | When the TTL removes rows only while a complete run has got through that started at most a given gap ago, then in every run every row that arrived within the lag margin is hot or in a file below the watermark, if and only if gap and lag margin, each up to the second, are together less than 48 hours. |
| Schedule.ScheduledReportIsClean | src/telemetry_engine/coldtier/export.py:545-586 | While such a run has got through, and gap and lag margin stay within 0.75 of the TTL in the settings, the health report says at risk if and only if no file of the lake holds a row. |
| ProtocolRuns.AttemptIsProtocol | src/telemetry_engine/coldtier/export.py:410-487 | One attempt of the exporter is a run of protocol steps. |
| ProtocolRuns.CrashAnywhere | src/telemetry_engine/coldtier/export.py:410-539 | Any run may be cut off by a crash after any step at which the exporter is at work, and the crash changes nothing but what it had in hand. |
| ProtocolRuns.EnvironmentIsFree | src/telemetry_engine/coldtier/export.py:495-502 | In any state any rows may arrive, whatever their timestamps, the clock may then move to any later moment, and the TTL may remove any row of the table that is 48 hours old, to the second. |
| ProtocolRuns.HistoryCounts | src/telemetry_engine/coldtier/export.py:498-502 | What the theorems count as arrived, as arrived within the lag margin and as removed above the watermark is the number of a run's steps of that kind. |
| ProtocolRuns.RunExportIsProtocol | src/telemetry_engine/coldtier/export.py:489-539 | While nothing else happens, what `run_export` does to lake and watermark table is a possible run of the protocol, from idle to idle. |
| LiveExport.RunExportRefines | src/telemetry_engine/coldtier/export.py:489-539 | With arrivals, deletions, clock ticks and merges before every action of the run, what it does to lake and watermark is still what `run_export` does with the observations it made. |
| ProtocolRuns.RestartBeginsAtTheFileExactly | src/telemetry_engine/coldtier/export.py:516-526 | After a crash between rename and watermark, whatever the environment does meanwhile, the next run begins with the file left behind if and only if its window ends on the hour or the horizon has not moved past it, and, without a watermark, the oldest row is in the same second; and if and only if that run finds no other file above the watermark. |
| ProtocolRuns.LeftBehindFileIsPlannedAgain | src/telemetry_engine/coldtier/export.py:477-486 | Once there is a watermark, every later run that plans anything begins with the file left behind if and only if its window ends on the hour. |
| Witnesses.EmptyStreamLosesARow | src/telemetry_engine/coldtier/export.py:443-447 | A run in which a nonempty window streams nothing: its row is below the watermark and in no file. |
| Witnesses.CrashOffTheHourDuplicates | src/telemetry_engine/coldtier/export.py:477-537 | From any state in which a window that ends off the hour was renamed and not recorded, a healthy run that crashes there puts any still hot row of its file in the lake twice. |
| Witnesses.ClippedCrashDuplicatesARow | src/telemetry_engine/coldtier/export.py:527-537 | A healthy run whose crash hits a clipped window: a row is in the lake twice. |
| Witnesses.FirstCrashDuplicatesARow | src/telemetry_engine/coldtier/export.py:219-222 | A healthy run whose crash hits the very first window: a row is in the lake twice. |
| Witnesses.ExpiryDuringExportLosesARow | src/telemetry_engine/coldtier/export.py:335-349 | A run in which the TTL deletes a late row of the window being exported: every count and total agrees, and another row is in no file. |
| Witnesses.CleanReportsSufficeExactly | src/telemetry_engine/coldtier/export.py:545-586 | In every run in which the TTL removes rows only under a clean report nothing is lost, if and only if 0.75 of the TTL in the settings is less than 48 hours. |
| Witnesses.LateWarningLosesARow | src/telemetry_engine/coldtier/export.py:545-586 | For every other setting a run from the start, with a clean report throughout, after which a punctual row is neither in the table nor in any file. |
| Rewind.RewindOverwritesExactly | src/telemetry_engine/coldtier/export.py:199-216 | The files planned again after a rewind meet the files already there only by overwriting them if and only if every old file that ends above the new watermark is one the plan produces again, which its start and end tell. |
| Rewind.RewindReplacesExactly | src/telemetry_engine/coldtier/export.py:199-216 | When they coincide and a run delivers every window, a row of a window that still has rows in the table is in the lake exactly as often as in the table, and every other row as often as before. |
| Rewind.RewindDuplicates | src/telemetry_engine/coldtier/export.py:199-216 | A row above the rewind that is still in the table and in a file that does not coincide is in the lake twice afterwards. |
| WatermarkMigration.HighestSurvivesExactly | schemas/clickhouse/140_cold_watermark_version.sql:20-34 | After any number of runs of the migration cut off anywhere, with watermarks written in between, the table reads the highest watermark ever written if and only if no run was cut off between the drop and the rename. |
| WatermarkMigration.CopiedRowsStay | schemas/clickhouse/140_cold_watermark_version.sql:20-34 | A rerun that does not get as far as the rename keeps every row an interrupted run has copied. |
| Rollup.GuardTellsApart | schemas/clickhouse/110_mv_spans_1m_v2.sql:35-55 | Of a value that is no sentinel, the guarded value tells whether it was absent, registered or neither. |
| Rollup.GroupByIsExact | schemas/clickhouse/110_mv_spans_1m_v2.sql:74-83 | Grouping has one row per key that occurs, and each row's states are the merge of exactly its group. |
| Rollup.MergingKeepsTotals | schemas/clickhouse/100_mv_spans_1h.sql:12-50 | A background merge of any two parts changes no query. |
| Rollup.MinuteTableRefines | schemas/clickhouse/110_mv_spans_1m_v2.sql:32-83 | Even while the allowlist changes, every query on the minute table equals one on the ungrouped guarded rows. |
| Rollup.HourTableRefines | schemas/clickhouse/100_mv_spans_1h.sql:12-50 | So does every query on the hour table, at hour resolution. |
| Rollup.RollupsAreDirectGroupBys | schemas/clickhouse/110_mv_spans_1m_v2.sql:32-83 | For one allowlist, any split into insert blocks and any merges leave every query on either table equal to the direct guarded aggregation of the raw spans. |
| Buckets.BucketsAreClockTimes | schemas/clickhouse/110_mv_spans_1m_v2.sql:32-83 | In every run each row of the minute table is for a clock minute, a multiple of one minute, in which some ingested span falls, and each row of the hour table for such an hour. |
| Buckets.BucketsCountTheirSpans | schemas/clickhouse/110_mv_spans_1m_v2.sql:32-83 | What the minute table says of a clock minute is the direct aggregate of exactly the spans from its first instant to its last, and what the hour table says of a clock hour that of the spans in the hour. |
| Buckets.ClockTimesAreBounded | schemas/clickhouse/110_mv_spans_1m_v2.sql:35-55 | No clock minute of the minute table and no clock hour of the hour table has rows with more keys than the product of the final domains' sizes. |
| Rollup.AggregateMeans | schemas/clickhouse/110_mv_spans_1m_v2.sql:57-73 | What the direct aggregate says of the spans: their number, distinct traces, errors, by the column `status_class`, and maximum cache use. |
| Rollup.AggregateSums | schemas/clickhouse/110_mv_spans_1m_v2.sql:60-71 | Its token counts are sums over all spans, and each average is the sum and the number of the positive readings. |
| Rollup.DigestMeans | schemas/clickhouse/110_mv_spans_1m_v2.sql:64-66 | Both quantile digests have absorbed each positive reading as often as it occurs, and no other. |
| Cardinality.MakeDimension | src/telemetry_engine/cardinality/registry.py:61-76 | The constructor accepts exactly a positive budget with one to that many values if static and none if elected, and otherwise raises the first of its errors that applies. |
| Cardinality.MaxRowsPerBucket | src/telemetry_engine/cardinality/registry.py:106-117 | The loop computes the product of (budget + 2) over all dimensions. |
| Cardinality.Guardian.SyncStatic | src/telemetry_engine/cardinality/guard.py:88-97 | The allowlist gains exactly the registered static pairs, and the number returned counts them, duplicates included. |
| Cardinality.WrittenCountsPairs | src/telemetry_engine/cardinality/guard.py:88-97 | That number is the number of registered static pairs when the registry lists nothing twice. |
| Cardinality.Guardian.SyncTopK | src/telemetry_engine/cardinality/guard.py:121-139 | The allowlist gains exactly the elected pairs and loses none, and the counts returned name each elected dimension with its number of values. |
| Cardinality.Guardian.Sync | src/telemetry_engine/cardinality/guard.py:151-170 | A sync changes nothing when a dimension names no column of the rollup, and otherwise ends with the dictionary equal to the grown table and reports both counts. |
| Cardinality.GuardStaysInDomain | schemas/clickhouse/110_mv_spans_1m_v2.sql:35-55 | A value guarded under any earlier allowlist is in the domain of the final one. |
| Cardinality.KeysAreBounded | schemas/clickhouse/110_mv_spans_1m_v2.sql:35-55 | Whatever the spans carry and however the allowlist grows meanwhile, no bucket of either table has more keys than the product of (allowlist size + 2). |
| Cardinality.BudgetBoundsKeys | src/telemetry_engine/cardinality/registry.py:106-117 | After one sync of an empty allowlist the number of keys is at most `max_rows_per_bucket`. |
| Cardinality.ResyncAddsUp | src/telemetry_engine/cardinality/guard.py:121-139 | After a later sync a dimension allows the union of what it allowed and what was elected. |
| RowBound.BoundIsAttained | schemas/clickhouse/110_mv_spans_1m_v2.sql:35-55 | For every allowlist some single block of spans fills a bucket of either table with every key the guard can produce. |
| RowBound.RowsStayWithinBudgetExactly | src/telemetry_engine/cardinality/registry.py:106-117 | Whatever the traffic, a minute stays within `max_rows_per_bucket` if and only if the product of what the allowlist admits per dimension does. |
| RowBound.ResyncOutgrowsTheBound | src/telemetry_engine/cardinality/guard.py:121-139 | Two syncs that each elect within every budget let traffic outgrow the bound on rows. |
| TopK.ComputeTopK | src/telemetry_engine/cardinality/guard.py:100-118 | The query has a result: at most `budget` distinct nonempty values, most frequent first, leaving out no more frequent one. |
| TopK.TopKCoversMost | src/telemetry_engine/cardinality/guard.py:100-118 | No set of at most `budget` nonempty values covers more spans than any such result, whichever way ties are settled. |
| TopK.FirstSyncCollapsesLeast | src/telemetry_engine/cardinality/guard.py:121-139 | Under the allowlist of a first sync no more of the window's spans collapse than under any allowlist within the dimension's budget. |
| TopK.CollapseIsTheGuards | schemas/clickhouse/110_mv_spans_1m_v2.sql:35-37 | Over any window the guard puts in the other bucket the spans without a row of their own, and those that carry that bucket's own name, registered. |
| Backfill.RollupStore.Backfill | src/telemetry_engine/storage/rollups.py:127-165 | The chunk loop, failing at any chunk or at none, leaves the tables of that many completed chunks and returns the number of spans in range. |
| Backfill.RollupStore.RollupBackfill | src/telemetry_engine/cli.py:361-405 | The command's choice of range, its effect and what it returns in every case: nothing to do, an empty range, a failure at a chunk, and otherwise the number of spans in range. |
| BackfillCommand.MissingIsUnseen | src/telemetry_engine/storage/rollups.py:41-48 | When the rollups are what the views made of the rows they saw, the spans taken to be missing are as many as the raw rows that no view saw. |
| BackfillCommand.FirstBucket | src/telemetry_engine/storage/rollups.py:65-82 | The rollup's first minute is the clock minute in which the first span that the views saw falls. |
| BackfillCommand.RangeIsTheGap | src/telemetry_engine/cli.py:388-396 | The range ends at that minute: no row that a view saw is in it, and any other row is if and only if it lies before the minute by at most the given hours. Without a rollup it ends at the newest row. It begins those hours earlier, or at the oldest row if that is later. |
| BackfillCommand.CommandAddsTheGap | src/telemetry_engine/cli.py:361-405 | After an uninterrupted run of the command every query on either table has gained exactly the direct aggregate of those unseen rows. |
| BackfillCommand.CommandCountsOnce | src/telemetry_engine/cli.py:361-405 | The rollup then counts as many spans as the views saw and the range held, each once. |
| Backfill.ChunkCount | src/telemetry_engine/storage/rollups.py:153-163 | Every chunk is an hour long, but for a last one that the range may cut short, and the range is done after as many as it takes. |
| Backfill.BackfillAddsExactly | src/telemetry_engine/storage/rollups.py:153-163 | Chunked equals unchunked: after any number of chunks in a row every query has gained exactly one aggregation of the part processed, even when chunk edges split a minute. |
| Backfill.SeenSpansAreCovered | src/telemetry_engine/cli.py:388-389 | Every span the views have seen is at or after the rollup's earliest minute. |
| BackfillRuns.BackfillCounts | src/telemetry_engine/cli.py:379-402 | After any interleaving of chunks, inserts through the views and background merges, every query on either table counts each span that the views saw or that lies in the part processed, and once more those that arrived in a part still to be processed that has been since. |
| BackfillRuns.BackfillNeverDoubleCounts | src/telemetry_engine/cli.py:379-402 | When no insert brings a span of the part still to be processed, every query at any moment is the direct guarded aggregation of the spans that should be counted. |
| BackfillRuns.LateExactly | src/telemetry_engine/storage/rollups.py:127-165 | A row is late exactly when an insert brought it while its part of the range was still to be processed. |
| BackfillRuns.CountsOnceExactly | src/telemetry_engine/storage/rollups.py:127-165 | At any moment the rollup counts as many spans as it should if and only if no chunk has passed a late row. |
| BackfillRuns.LoopIsAnInterleaving | src/telemetry_engine/storage/rollups.py:153-163 | The chunk loop, when nothing else happens, is one of these interleavings. |
| Backfill.InterruptedBackfillLeavesAGap | src/telemetry_engine/cli.py:388-396 | After an interruption a rerun ends where the first run was to end if and only if the completed chunks were empty; otherwise it never reaches the rest. |
| Backfill.EmptyRollupMissesTheNewest | src/telemetry_engine/cli.py:388-396 | Without a rollup a complete backfill counts all spans but those at the newest timestamp. |
| Pacing.RateLimiter.Acquire | src/telemetry_engine/emitters/workload.py:523-535 | One call's grant and new state are those of the bucket function: credit and earnings, at most the cap, split into a whole number and a fraction. |
| Pacing.CallBounds | src/telemetry_engine/emitters/workload.py:523-535 | After a call the credit is in [0, 1), and the grant is between zero and the cap. |
| Pacing.CallExactly | src/telemetry_engine/emitters/workload.py:523-535 | When credit plus elapsed time times rate reaches the cap, the grant is the floor of the cap and the rest of the cap stays; below it the grant is the floor of what there is and the rest stays. |
| Pacing.Ledger | src/telemetry_engine/emitters/workload.py:523-535 | Over any calls, grants plus remaining credit never exceed starting credit plus earnings, and equal it when the cap never binds. |
| Pacing.StallsCostTheExcess | src/telemetry_engine/emitters/workload.py:523-535 | Over any calls, whether or not the cap binds, grants plus remaining credit are at least the starting credit plus what each call earned, counted up to one less than the cap. |
| Pacing.GrantsTrackEarnings | src/telemetry_engine/emitters/workload.py:501-535 | Over any window of calls the grants are below 1 plus elapsed time times rate, and above that minus 1 when the cap never binds. |
| Pacing.EmitAllowance | src/telemetry_engine/emitters/load.py:117-122 | Whole traces are emitted until the allowance is met, with at most seven spans to spare. |
| Pacing.RunWorker | src/telemetry_engine/emitters/load.py:95-122 | The worker's loop with its fresh limiter: emission lies between the grants and seven spans more per granting turn; so it is within one span and seven per granting turn above what the rate earned, and within one span below it unless the cap bound; in any case within one span below what its turns earned, each counted up to the cap less one. |
| Pacing.TurnsUntilTheEnd | src/telemetry_engine/emitters/load.py:96-100 | A turn is taken if and only if neither it nor any before it began at or after the end of the run. |
| LoadShortfall.RiemannSum | src/telemetry_engine/emitters/load.py:95-122 | On a monotonic clock what the limiter earns is a Riemann sum of the rate, off from its integral by at most the rate's swing for the longest step. |
| LoadShortfall.RunAndReport | src/telemetry_engine/emitters/load.py:76-147 | The worker and its report: for every profile what it emits follows the integral of the target rate within one span, seven per granting turn, the head start and that slack; under steady load it falls short of the reported target by less than one span and what was due after the limiter's last reading. |
| LoadShortfall.CapStaysClear | src/telemetry_engine/emitters/workload.py:523-535 | The cap never binds while no step earns more than the cap less one. |
| LoadShortfall.ShortfallInSpans | src/telemetry_engine/emitters/load.py:64-73 | The reported percentage of the target is a hundred times the spans missing, and zero when none are. |
| TargetIntegral.IntegrateTarget | src/telemetry_engine/emitters/load.py:150-163 | The loop terminates and computes the one-second sum. |
| TargetIntegral.BurstIsConstantPerSecond | src/telemetry_engine/emitters/workload.py:481-492 | Such a burst switches only on the second. |
| TargetIntegral.LinearIncrement | src/telemetry_engine/emitters/workload.py:494-498 | The integral of a straight line is its trapezoid, from the definition by lower and upper sums. |
| RateIntegral.IntegralIsIntegral | src/telemetry_engine/emitters/workload.py:481-498 | The closed form, a line, whole periods and a part of one, or a parabola and a line, is the integral of the target rate for every profile with a positive period or duration. |
| RateIntegral.SumIsTheIntegral | src/telemetry_engine/emitters/load.py:150-163 | For steady load, and for bursts of whole-second period and duration, the sum is the integral. |
| RateIntegral.RampErrorExactly | src/telemetry_engine/emitters/load.py:150-163 | For a climbing ramp the sum never exceeds the integral and misses at most the whole climb; it misses at most half the climb for every run length if and only if the ramp lasts whole seconds or does not climb. |
| RateIntegral.HalfSecondRamp | src/telemetry_engine/emitters/load.py:150-163 | A ramp from 1 to 11 spans a second in half a second: the sum of one second misses 7.5 spans of 8.5. |
| TargetIntegral.BurstPeriodTotal | src/telemetry_engine/emitters/workload.py:481-492 | Every period of a burst profile, wherever it starts, adds the burst rate for its duration and the sustained rate for the rest. |
| TargetIntegral.RampTotal | src/telemetry_engine/emitters/workload.py:494-498 | A climbing ramp adds up to its duration at the mean of its first and last rate. |
| Trace.FindWorst | src/telemetry_engine/emitters/workload.py:428-432 | The root's status is that of the first failed child, and success only if none failed. |
| Trace.GenerateTrace | src/telemetry_engine/emitters/workload.py:381-452 | For every draw the loop lays calls and tool calls end to end under a root that outlasts them. |
| Trace.DrawnTraces | src/telemetry_engine/emitters/workload.py:396-452 | Every drawn trace is sequential inside its root and has two to eight spans. |
| Trace.DrawsShow | src/telemetry_engine/emitters/workload.py:396-452 | The children are the calls of the steps in order, each with its drawn duration and status, and behind each but the last the tool call drawn for it, if any; they fill the time from the drawn lead to the drawn tail of the root without a gap; the root has failed if and only if some draw has. |
| Trace.Tracer.EmitSpan | src/telemetry_engine/emitters/otlp.py:92-120 | For any span tree the recursion starts and ends exactly the listed spans and returns `span_count`. |
| Trace.Tracer.EmitTrace | src/telemetry_engine/emitters/otlp.py:123-139 | So for a whole trace, backdated by its truncated duration unless a start is given. |
| Trace.StartsFollowWalk | src/telemetry_engine/emitters/workload.py:180-188 | Spans are started in the order of `walk`, each at its own offset. |
| Trace.ParentsAreLinked | src/telemetry_engine/emitters/otlp.py:102-117 | Every span but the first is started after, and under, a span it is a child of. |
| Trace.EachSpanEndsOnce | src/telemetry_engine/emitters/otlp.py:111-120 | Every started span is ended exactly once, at its own start plus its own duration. |
| Trace.EndsAreNested | src/telemetry_engine/emitters/otlp.py:111-120 | When a span has ended, none of its descendants is still to end. |
| Trace.TruncatedTraceIsWellFormed | src/telemetry_engine/emitters/otlp.py:100-137 | After truncation a drawn trace ends exactly at emission, its children lie at least half a millisecond inside the root, and consecutive children neither overlap nor drift more than a nanosecond apart. |
| Migrations.Server.ApplyAll | src/telemetry_engine/storage/migrations.py:110-184 | A run cut off after any effect has performed exactly that prefix of its plan; a finished run reports exactly the applied, skipped and drifted files. |
| Migrations.Server.DryRun | src/telemetry_engine/storage/migrations.py:123-132 | A dry run changes nothing and lists as pending every file that is not up to date. |
| Migrations.HistoryIsSafe | src/telemetry_engine/storage/migrations.py:134-182 | In any history of runs cut off anywhere: a record directly follows all of its file's statements, nothing of a file runs before every earlier undrifted file is up to date, and no file but the first runs once it is recorded. |
| Migrations.RecordsFollowStatements | src/telemetry_engine/storage/migrations.py:134-182 | Wherever a file is recorded in a history, its statements stand directly before, all of them and in their order, and before the first file's record the bookkeeping table is made. |
| Migrations.ReportIsTrue | src/telemetry_engine/storage/migrations.py:144-184 | Reported as applied are exactly the files a run records, in order; every file is in one list, skipped if recorded as it stands, drifted if it is not the first and recorded otherwise. |
| Migrations.RecordedFilesAreLeftAlone | src/telemetry_engine/storage/migrations.py:155-172 | A file other than the first that was recorded before, drifted or not, is never executed or recorded again. |
| Migrations.CleanRunSettles | src/telemetry_engine/storage/migrations.py:134-184 | However many runs were cut off before, one finished run leaves every undrifted file up to date, and the next executes the first file only. |
| Migrations.DryRunPredicts | src/telemetry_engine/storage/migrations.py:123-132 | A dry run predicts what a real run applies if and only if no file has drifted. |
| Quiesce.WaitUntilQuiesced | src/telemetry_engine/experiments/backpressure.py:393-431 | It returns at the very first poll that ends a span of consecutive caught-up polls with one rebalance count and the required length, and otherwise raises, only after the deadline. |

## Left out

- Protocol: one exporter, one lag margin and no rewind within a run of the protocol; concurrent exporters or a smaller margin can plan windows that overlap old files. A rewind between runs is the subject of `Rewind`.
- Protocol: the oldest row and the horizon of a run are read in one step; the source reads them one after the other.
- Protocol: rows have the columns that a check reads and one field for all others; the span's attribute map and its ingestion time are not exported by the source either.
- NoLoss.WatermarkCovers: assumes that when the stream has not kept up, the TTL takes no streamed row of which no copy is left before the fingerprint, which `ExpiryDuringExportLosesARow` shows is needed and a clean health report implies (some of the deletions it leaves out the fingerprint would notice), and that no window that holds rows streams none, which `EmptyStreamLosesARow` shows is needed.
- NoDuplicates.NothingIsDuplicated: assumes that every start finds no file above the watermark but its own; `RestartBeginsAtTheFileExactly` says when that is so, and `OnceOnly.NoRowIsFiledTwice` holds under the weaker condition that `StartIsHarmlessExactly` shows is exact, but then files may overlap.
- LiveExport.RunExportRefines: assumes that what each action observes is possible when it observes it; nothing is said of a run whose observations are not.
- ExportCore.FingerprintsAgree: a null aggregate of an empty set, and the rounding of the summed float to three digits, are not modelled; the tolerance is.
- Layout.ParseWindow: digits are ASCII, and a name has no trailing newline; years are those with four digits.
- Planner.PlanWindows: datetimes do not overflow at the end of year 9999.
- Exporter: writing Parquet, stripping time zones, bytes on disk, file paths outside the lake, and the report's reasons are not modelled.
- Rollup: distinct counts are exact and digests keep all readings; ClickHouse's approximations, the TTL of the rollup tables and its resolution of the alias `status_class` are library behaviour. The value 'ok' is taken to be registered.
- BackfillRuns.BackfillCounts: the allowlist does not change and the TTL deletes no raw row while the backfill runs; `min()` of an empty table is none.
- Backfill.RollupStore.RollupBackfill: a failed chunk has written nothing; the confirmation prompt is taken as given.
- Cardinality: the registry's list of forbidden attributes, the status report and the loading of its file are single-branch code.
- TopK: the query's time window is the sequence of values it scans.
- Pacing: floats do not round, and the worker's progress reports and the exporter's own queue are not modelled.
- LoadShortfall.RunAndReport: one worker; summing the workers' reports, and a worker whose tracer raises, are left out.
- TargetIntegral: an integral is any function whose increments respect every lower and upper bound of the rate; falling ramps have one, but no bound on the sum's error.
- WatermarkMigration: one source of watermarks; what the old table's version column made of ties is not modelled, only the maximum that the migration copies.
- Trace: span attributes and names, the KV-cache walk and the distributions of the draws; every draw in its range is allowed.
- Migrations: splitting a file into statements, checksums and discovery; statements do not touch the bookkeeping table, and each is either performed or not.
- Quiesce: a poll whose queries raise.
- Dashboards, web page, command-line output, validity checks, percentile picking, metric scraping, topic reconciliation and settings are generated text or single-branch code.
