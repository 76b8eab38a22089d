# Envorca daemon: a verified model

Envorca keeps a Linux development environment on Windows healthy. Its daemon
publishes events to subscribed clients, keeps a bounded history in SQLite, asks
`wsl.exe` and docker about the state of the machine, and proposes and executes
repairs. This project models those four parts in Dafny and proves what they
keep over every run, every interleaving and every behaviour of the machine.

* **Event bus and streams.** `Events` is the bus as a class over a backing array
  with the append-and-reslice of the original. `Streams` is the system of
  publishers and replaying streams as a step machine, `Schedules` runs it on
  the bus, `Seam` characterises duplicates and losses between replay and live
  events, and `Reduction` shows that publishing to one subscriber at a time is
  the same as publishing at once, in both directions. `Draining` shows that a
  stream can always send whatever it holds.
* **History and migrations.** `History`, `Retention` and `HistoryStore` relate
  the pruned tables to the unbounded log of everything inserted. `Migrations`
  and `VersionOrder` treat migration as a crash-and-retry loop;
  `MigrationProgress` says exactly when a run succeeds and what it has done.
* **Reading `wsl.exe` and docker.** `GoStrings`, `Trimming` and `Lines` are the
  string operations of Go that the daemon relies on, at byte level. `Unicode`
  and `WslOutput` cover encodings, `RowPattern` the one regular expression,
  `DistroTable`, `DistroRoundTrip`, `Containers` and `Answers` the listings.
* **Diagnose, plan, confirm, execute, verify.** `Wsl` holds the runner: an
  arbitrary function from the history of calls to a reply, with the calls
  recorded. `Docker`, `Health`, `Diagnosis` and `KernelAge` are the probes,
  `ProbeReadings` what they report of printed tables and listings, `Recovery` the actions, `RepairSafety` and `Agreement` their properties,
  `Daemon` the repair RPCs over the real bus and history table, and `Cli` the
  repair command.

Check everything with `dafny verify dfyconfig.toml`.

Methods that issue commands are proved equal to functions of the behaviour of
`wsl.exe` and the calls made before; the theorems are about those functions and
hold for every behaviour.

## Where the code differs from its documentation, or surprises

The model follows the code.

* `daemon/internal/wsl/wsl.go:160-162` promises big-endian UTF-16 without a
  mark. The code decodes every unmarked UTF-16 as little-endian. For ASCII text
  the result is right exactly when the text is blank
  (`UnmarkedBigEndian.AsciiReadsBackIffBlank`).
* `cli/cmd/envorca/repair.go:23-25` says that actions which require
  confirmation run when the user authorizes them or passes `--yes`. The code
  sends only the flag (line 76), so agreeing at the prompt never confirms
  `wsl.restart`. Every non-empty plan ends with `wsl.restart`
  (`RepairSafety.PlanShapes`), so such a run always reports a failure
  (`Cli.WholeRepairRuns`, which says exactly when a run shuts the machine down).
  Even with `--yes` the success message appears only if the machine still needed
  repair just before the restart: a `wsl.start` that works and stays up is
  reported as a failure (`Cli.AllAppliedMeansStillBroken`).
* `daemon/internal/runtime/docker.go:108-109` counts failures to invoke
  `wsl.exe` itself as transport failures. Only failures to find the default
  distro are wrapped; a `wsl.exe` that fails on the docker command reads as a
  missing docker client (`Docker.PingErrorMeansNoDistro`).
* `daemon/internal/events/events.go:12-14` offers a sequence number to order
  events by. A replaying stream can deliver an event twice: which ones, and
  when none, is exactly decided by how much was published between Subscribe and
  Snapshot and how much was sent live (`Seam.DeliveredTwiceIff`,
  `Seam.ExactlyOnceIff`). The obvious use of the number to remove duplicates can
  hide an event that the replay had already evicted (`Seam.ClientViewTheorem`
  says exactly when).
* `daemon/internal/diagnosis/probes.go:81-136` and the repair plan agree on what
  is safe to fix, but a probe that panics is never marked as safe to fix while
  its panic message may contain a repair keyword (`Agreement.SnapshotAgrees`).
* `daemon/internal/state/state.go:53` promises to apply migrations in order.
  They run in the order of their names, which is the order of their versions
  exactly when no two of them are misplaced in the sense of
  `VersionOrder.Misplaced`; with numerals of one width none ever is.
* The row pattern accepts a default mark without a name: `*  Running  2` is a
  distro called `*` that is no default, and with more than two spaces behind the
  mark the row is a default distro with an empty name
  (`DistroRoundTrip.MarkAsName`, `DistroRoundTrip.MarkWithoutName`).

## Model

| member | source | states |
|---|---|---|
| Events.Bus.constructor | daemon/internal/events/events.go:34-36 | a new bus has published nothing and has no subscribers |
| Events.Bus.Append | daemon/internal/events/events.go:46 | append writes in place while the backing array has room and otherwise moves to a fresh, larger array; either way the slice is the old one followed by the event |
| Events.Bus.Retain | daemon/internal/events/events.go:46-49 | append and reslice leave the newest `max` of the old contents and the event, `max` being 0 or more |
| Events.Bus.Record | daemon/internal/events/events.go:44-49 | the published log grows by one event stamped with the next number modulo 2^64, and the buffer stays the newest `max` events of that log |
| Events.Bus.Publish | daemon/internal/events/events.go:39-57 | one publish extends the log by one stamped event and offers exactly that event to every subscriber, dropping it where 64 are queued |
| Events.Bus.FanOut | daemon/internal/events/events.go:50-55 | whatever order the map is iterated in, every queue ends the same |
| Events.Bus.Subscribe | daemon/internal/events/events.go:60-70 | a fresh, empty channel joins the subscribers; nothing else changes |
| Events.Bus.Unsubscribe | daemon/internal/events/events.go:65-69 | exactly that channel leaves the subscribers |
| Events.Bus.Snapshot | daemon/internal/events/events.go:73-79 | a fresh copy of the retained events, oldest first |
| Events.Bus.SnapshotOutlivesPublishes | daemon/internal/events/events.go:44-49 | however many events are published after a snapshot, in place or after growing, the snapshot still reads as it did |
| Events.Bus.PublishAll | daemon/internal/events/events.go:39-57 | any number of publishes extends the log by those events in order with consecutive stamps |
| Events.Channel.TrySend | daemon/internal/events/events.go:51-54 | a non-blocking send: queued when fewer than 64 wait, else dropped without a trace |
| Events.Channel.Receive | daemon/internal/api/daemon.go:201-205 | a receive takes the oldest queued event |
| Streams.Reachable | daemon/internal/api/daemon.go:186-207 | for every interleaving of publishers and streams: the buffer refines the log, no queue exceeds 64, what a stream took is exactly what its queue accepted, and its snapshot is the newest `max` events of its moment |
| Streams.AllFillUp | daemon/internal/api/daemon.go:187-194 | until its snapshot a replaying stream only lets its channel fill: the i-th publish of the wait meets min(i, 64) events |
| Schedules.RunSchedule | daemon/internal/events/events.go:39-79 | every schedule of publishers and streams, carried out on a real bus with real channels, ends in exactly the state that the step system computes |
| Draining.CanDrain | daemon/internal/api/daemon.go:197-205 | from any state, by steps of its own alone, a running stream (with its snapshot if it asked for one) can send in order all it has replayed, received and queued; nothing else changes |
| Draining.EverythingTakenArrives | daemon/internal/api/daemon.go:197-205 | after any run, what such a stream can deliver is the replay and exactly the events that found room in its channel |
| Draining.SubscribersAreServed | daemon/internal/api/daemon.go:187-206 | a client that subscribes in any state of the invariant can be sent the retained events, if it asks, and then exactly the events published since, up to 64 of them without a step in between |
| Draining.GoneForGood | daemon/internal/api/daemon.go:188 | a stream that has returned and left the subscribers is never changed by any later step |
| Seam.NothingElseIsMissing | daemon/internal/api/daemon.go:186-207 | over all runs: the replay is the contiguous newest `max` stamps at the snapshot; live, in-hand and queued events are strictly increasing and newer than the subscription; together with the dropped ones they are one contiguous run of stamps, accepted and dropped being disjoint |
| Seam.FullRunIffNeverFull | daemon/internal/events/events.go:50-69 | accepted plus dropped events are the ones published while subscribed; a subscriber took all of them if and only if no publish met 64 waiting events |
| Seam.DeliveredTwiceIff | daemon/internal/api/daemon.go:187-206 | an event reaches the client twice if and only if the replay still held it and it is among the first events published after Subscribe: as many as fit the 64 slots, were published before Snapshot and have been sent |
| Seam.ExactlyOnceIff | daemon/internal/api/daemon.go:187-206 | no event comes twice if and only if nothing was sent live, nothing was published between Subscribe and Snapshot, the bus retains nothing, or at least max plus min(live events, 64) were published in between |
| Seam.ExactlyOnceFails | daemon/internal/api/daemon.go:187-206 | an instance, for every positive max: one event, delivered twice |
| Seam.ClientViewTheorem | daemon/internal/events/events.go:12-14 | ignoring live events no newer than the last replayed one makes every replaying stream strictly increasing, and hides a delivered event if and only if something was both replayed and received live and more than `max` events were published between Subscribe and Snapshot; the hidden ones are exactly the live ones the replay had evicted |
| Reduction.Linearize | daemon/internal/events/events.go:43-56 | every run in which a publish sends to subscribers one at a time, in any order and interleaved with receivers, has an atomic-publish run with the same log, buffer and streams once the publish is done, and differs before that only in the subscribers not yet served |
| Reduction.FineReachable | daemon/internal/events/events.go:43-56 | so whatever holds of all atomic runs, the stream invariant included, holds between the publishes of every fine-grained run |
| Reduction.Refine | daemon/internal/events/events.go:43-56 | conversely, every run with atomic publishes is one of the fine-grained runs |
| History.PruneHoldsNewest | daemon/internal/state/history.go:39-42 | deleting all but the `keep` newest ids leaves exactly the newest rows of the full insert log |
| History.InsertHoldsNewest | daemon/internal/state/history.go:35-38 | an insert with a larger id keeps the table a newest suffix of the log |
| History.RecentHoldsNewest | daemon/internal/state/history.go:47-66 | ORDER BY id DESC LIMIT n answers with the last rows inserted, newest first, as many as there are up to n |
| Retention.Reachable | daemon/internal/state/history.go:34-44 | any interleaving of inserts and prunes, prunes failing at will: the table is a contiguous newest suffix of the log, holds at least min(n, keep) rows and at most keep plus recorders in flight plus prunes failed since the last success |
| Retention.InsertIsNewest | daemon/internal/state/history.go:34-44 | in every reachable state an inserted row is there at once and is the first one read |
| Retention.PruneIsExact | daemon/internal/state/history.go:39-42 | in every reachable state a prune that works leaves exactly min(n, keep) rows |
| Retention.NoFailuresBound | daemon/internal/state/history.go:70-81 | if no prune failed the table is never larger than keep plus the recorders in flight |
| Retention.ClampLimit | daemon/internal/api/daemon.go:237-246 | every int32 becomes a limit: itself from 1 to 500, 20 when not positive, 500 above |
| Retention.PrunedAnswer | daemon/internal/api/daemon.go:105-147 | in every reachable state an answer from the pruned table is a newest-first prefix of the unpruned answer, and the whole of it up to `keep` rows |
| Retention.RepairHistoryHidesPruning | daemon/internal/api/daemon.go:126-147 | for every limit GetRepairHistory answers as if nothing had ever been pruned |
| Retention.DiagnosticsShowPruningIff | daemon/internal/api/daemon.go:105-123 | GetDiagnostics is complete for every table of more rows exactly when the clamped limit is at most the rows held |
| HistoryStore.HistoryTable.Insert | daemon/internal/state/history.go:71-75 | one row with the next id |
| HistoryStore.HistoryTable.Delete | daemon/internal/state/history.go:76-79 | the newest `keep` rows stay |
| HistoryStore.HistoryTable.Record | daemon/internal/state/history.go:70-81 | a failed insert changes nothing; a failed prune is reported although the row is stored |
| HistoryStore.HistoryTable.RecentRows | daemon/internal/state/history.go:84-105 | the newest rows of the log, newest first; nothing for a limit of 0 or less |
| HistoryStore.GetRepairHistory | daemon/internal/api/daemon.go:130-146 | the last recorded outcomes, newest first, with success read back from its integer column |
| Daemon.Daemon.GetRepairHistory | daemon/internal/api/daemon.go:126-147 | unavailable without a state database, internal when reading fails, else the newest stored outcomes |
| Migrations.SortSorts | daemon/internal/state/state.go:83 | sorting orders the names and keeps each as often as it occurs |
| Migrations.Database.Migrate | daemon/internal/state/state.go:54-113 | the loop with its transactions equals the run function, whatever statement fails |
| MigrationProgress.SucceedsIff | daemon/internal/state/state.go:54-113 | for any files and from any state, a run succeeds if and only if the applied versions could be read, the files not yet applied have versions, distinct ones, and BEGIN, SQL, INSERT and COMMIT of each of them work; then exactly those are committed, in order |
| MigrationProgress.OneGoodRunCompletes | daemon/internal/state/state.go:96-113 | after any runs, each failing at any statement, one run without a fault applies every file, in order, and reports success, when the names parse with distinct versions |
| MigrationProgress.NothingUnbacked | daemon/internal/state/state.go:96-112 | in any run each new effect had its BEGIN, SQL and INSERT work and its COMMIT take effect |
| MigrationProgress.BadNameStops | daemon/internal/state/state.go:84-88 | a name without a version fails the run, but what sorts before it is applied |
| MigrationProgress.UnheardCommitCounts | daemon/internal/state/state.go:108-110 | a commit that goes through although it reports an error fails the run, and its version is not pending any more |
| MigrationProgress.GoodRunAdvances | daemon/internal/state/state.go:96-113 | even when versions repeat, a run without a fault succeeds or commits at least one migration |
| Migrations.AlwaysAPrefix | daemon/internal/state/state.go:54-113 | after any number of runs, each failing at any statement, the committed effects are a prefix of the plan and schema_migrations holds exactly their versions |
| Migrations.EachAtMostOnce | daemon/internal/state/state.go:89-110 | no version is ever committed twice |
| Migrations.SuccessIsFinal | daemon/internal/state/state.go:112 | a run that reports success has committed the whole plan and no later run changes anything |
| Migrations.PlanIsEverything | daemon/internal/state/state.go:84-91 | the plan is all the files if and only if every name parses and no two share a version |
| Migrations.RerunSucceeds | daemon/internal/state/state.go:84-112 | once the plan is committed a run only has to read schema_migrations, even when the plan misses a file of a repeated version |
| VersionOrder.ParsesItsDigits | daemon/internal/state/state.go:122-129 | a name of digits, underscore and the rest parses to the number its digits write |
| VersionOrder.NameOrderIsVersionOrder | daemon/internal/state/state.go:83-91 | between digit prefixes of equal width the order of names with different prefixes is the order of versions |
| VersionOrder.CommittedInVersionOrder | daemon/internal/state/state.go:116-120 | with equal widths, after any runs with any failures, committed versions ascend and SchemaVersion is the last one committed |
| VersionOrder.ShorterNameFirst | daemon/internal/state/state.go:83-91 | of two numerals the shorter one sorts first if and only if its version is below the other one divided down to its width |
| VersionOrder.NameOrderFailsIff | daemon/internal/state/state.go:83-91 | for numerals of any widths, name order contradicts version order if and only if the smaller version has the shorter numeral and is at least what the larger one begins with |
| VersionOrder.PlanAscendsIff | daemon/internal/state/state.go:83-91 | the plan commits versions in ascending order if and only if it holds no such pair |
| VersionOrder.UnequalWidthsBreakIt | daemon/internal/state/state.go:83 | an instance: "10_b.sql" sorts before "9_a.sql" |
| Unicode.UnitsRoundTrip | daemon/internal/wsl/wsl.go:187 | UTF-16 decoding undoes the encoding of section 2.1 of RFC 2781 for every text, surrogate pairs included |
| Unicode.BytesRoundTrip | daemon/internal/wsl/wsl.go:183-186 | pairing bytes undoes serialising in either order, and a stray last byte is ignored |
| Unicode.TextReadsBack | daemon/internal/wsl/wsl.go:187 | the bytes of a text, read as in section 3 of RFC 3629, give the text back |
| WslOutput.DecodeUtf16 | daemon/internal/wsl/wsl.go:182-188 | the byte-pair loop reads exactly the code units of the specification |
| WslOutput.DecodeOutput | daemon/internal/wsl/wsl.go:163-180 | the detection branches agree with the specification for every input |
| WslOutput.MarkedRoundTrip | daemon/internal/wsl/wsl.go:163-171 | UTF-16 of either order behind the mark of section 3.2 of RFC 2781 decodes to the trimmed text, with or without a stray odd byte |
| WslOutput.Utf8RoundTrip | daemon/internal/wsl/wsl.go:172-180 | UTF-8 without NUL decodes to the trimmed text: none of its bytes passes for a mark |
| WslOutput.UnmarkedRoundTrip | daemon/internal/wsl/wsl.go:172-178 | unmarked little-endian UTF-16 with an early zero byte decodes to the trimmed text unless it begins like a mark |
| WslOutput.UnmarkedDetectedIff | daemon/internal/wsl/wsl.go:172-178 | UTF-16 without a mark that does not begin like one is recognised if and only if one of its first 128 code units has a zero byte, and else is taken for UTF-8 |
| WslOutput.EncodingIndependence | daemon/internal/wsl/wsl.go:163-180 | one text in the four encodings gives one answer |
| UnmarkedBigEndian.AsciiReadsBackIffBlank | daemon/internal/wsl/wsl.go:160-178 | big-endian UTF-16 without a mark decodes ASCII text correctly if and only if the text is made of spaces |
| UnmarkedBigEndian.PlacesChange | daemon/internal/wsl/wsl.go:172-178 | outside ASCII the answer can be right although no character of it is: two characters change places and one is trimmed |
| RowPattern.FindRowIsTheMatch | daemon/internal/wsl/wsl.go:60 | the direct row parser finds a match if and only if the pattern has one, and it is the one a leftmost, lazy search prefers |
| Lines.CollectLines | daemon/internal/wsl/wsl.go:68-85 | the loop over split lines appends in order what each line yields |
| Lines.TrimBackInvisible | daemon/internal/wsl/wsl.go:68-73 | for line readers that trim, trimming the end of the whole output changes nothing |
| DistroTable.ListDistros | daemon/internal/wsl/wsl.go:63-87 | the loop of List equals the specification by lines |
| DistroTable.ParseLineIgnoresTrailingSpace | daemon/internal/wsl/wsl.go:69-75 | a row reads the same with white space, a carriage return included, behind it |
| DistroRoundTrip.TableReadsBack | daemon/internal/wsl/wsl.go:60-87 | reading a printed table gives exactly the printed distros in order, running exactly those whose STATE column says Running, for any padding, LF or CRLF, and names that contain anything, even text that looks like a state and a version |
| DistroRoundTrip.ParsedShows | daemon/internal/wsl/wsl.go:60-85 | conversely, a line that yields a distro ends in one of the five states, white space and a version, and the distro is running and has that version accordingly |
| DistroRoundTrip.MarkWithoutName | daemon/internal/wsl/wsl.go:60-85 | a row with a default mark, three or more spaces and no name is a default distro with an empty name |
| DistroRoundTrip.MarkAsName | daemon/internal/wsl/wsl.go:60-85 | with just two spaces behind the mark it is a distro called * that is no default |
| Wsl.FirstDefault | daemon/internal/wsl/wsl.go:90-101 | the first distro marked as default, or the empty name |
| Wsl.List | daemon/internal/wsl/wsl.go:63-87 | one command; its failure or the distros in what it printed |
| Wsl.DefaultDistro | daemon/internal/wsl/wsl.go:90-101 | one list command; its failure, or the first default |
| Wsl.KernelVersion | daemon/internal/wsl/wsl.go:104-116 | one version command; its failure, or the first kernel line, or "" |
| Wsl.Boot | daemon/internal/wsl/wsl.go:120-123 | one command inside the distro, fails when that fails |
| Wsl.Shutdown | daemon/internal/wsl/wsl.go:126-129 | one shutdown command |
| Answers.ListReadsBack | daemon/internal/wsl/wsl.go:63-101 | List returns the printed distros and DefaultDistro the first default in each of the four encodings |
| Answers.KernelReadsBack | daemon/internal/wsl/wsl.go:104-116 | KernelVersion finds the printed version among any other lines in each of the four encodings |
| Answers.MarkedLine | daemon/internal/wsl/wsl.go:70-110 | a UTF-8 byte-order mark in front of a row or of the version line changes nothing |
| Containers.ListContainers | daemon/internal/runtime/docker.go:60-84 | the loop equals the specification by lines |
| Containers.CountRunning | daemon/internal/diagnosis/probes.go:248-253 | the counter is the number of containers in state running |
| Containers.PrintsInOrder | daemon/internal/runtime/docker.go:51-85 | the fields are id, name, image, state and status, in this order, between tabs |
| Containers.ListingReadsBack | daemon/internal/runtime/docker.go:51-85 | a printed listing reads back as the same containers in order, empty fields included, when ids and the last visible field show no white space at the ends of the output |
| Docker.Exec | daemon/internal/runtime/docker.go:89-99 | lists first; without a default distro runs nothing more |
| Docker.Ping | daemon/internal/runtime/docker.go:30-47 | the client is asked first, the server only when the client answered |
| Docker.ListAll | daemon/internal/runtime/docker.go:51-85 | one docker ps -a inside the default distro |
| Health.Registry.Register | daemon/internal/health/health.go:36-49 | a repeated id is refused and changes nothing; otherwise the component is appended; ids stay distinct |
| Health.Present | daemon/internal/health/health.go:57-74 | the registered id and never an unspecified status, which becomes unknown; a panic is critical, not safe to fix, and shows its message; anything else keeps what the probe reported |
| Diagnosis.WslProbe | daemon/internal/diagnosis/probes.go:81-136 | the probe's answer and its commands equal the decision tree, for every behaviour of wsl.exe |
| ProbeReadings.NoDefaultWarns | daemon/internal/diagnosis/probes.go:102-109 | when a printed table, in any encoding, marks no default, the wsl probe warns and boots nothing |
| ProbeReadings.DefaultFailsToBoot | daemon/internal/diagnosis/probes.go:111-120 | it boots exactly the distro whose row is the first one marked, and is critical and safe to fix when that fails |
| ProbeReadings.DefaultBoots | daemon/internal/diagnosis/probes.go:121-134 | when it boots, the probe is healthy and shows its name, and running exactly when the second table prints Running in the row of the default |
| KernelAge.WarnsIffOlder | daemon/internal/diagnosis/probes.go:138-184 | the kernel probe warns if and only if the printed version is older than 5.10, compared number by number, in any of the four encodings, and names it; otherwise it is healthy and shows the version; it never calls for a fix |
| KernelAge.VersionReadsBack | daemon/internal/diagnosis/probes.go:167-184 | major and minor of a printed version read back, whatever part or suffix follows |
| Diagnosis.ContainerProbe | daemon/internal/diagnosis/probes.go:215-259 | answer and commands equal the decision tree, counting loop included |
| ProbeReadings.ContainerVerdict | daemon/internal/diagnosis/probes.go:219-246 | unknown exactly without a default distro, a warning exactly when the client does not answer or shows only white space, critical exactly when the server does, else healthy; never safe to fix |
| ProbeReadings.PrintedCounts | daemon/internal/diagnosis/probes.go:245-256 | the summary shows the server version and how many of the containers that docker printed are in state running, and how many there are |
| Diagnosis.DigitsRead | daemon/internal/diagnosis/probes.go:255 | the printed numbers read back and have no leading zero |
| Diagnosis.Snapshot | daemon/internal/health/health.go:54-76 | every component once, in registration order, on one growing record of commands |
| Diagnosis.DefaultRegistry | daemon/internal/diagnosis/probes.go:54-72 | the seven components register without a clash |
| ProbeReadings.DefaultSnapshot | daemon/internal/diagnosis/probes.go:54-72 | without a panic the snapshot of the default registry has all seven components in order; only wsl, kernel and containers run commands, one after the other |
| Recovery.StartDefault | daemon/internal/recovery/actions.go:145-158 | list, then boot what was listed as default |
| Recovery.Action.Execute | daemon/internal/recovery/actions.go:177-186 | a restart stops the machine first and starts nothing if that fails |
| Recovery.Action.Verify | daemon/internal/recovery/actions.go:187-193 | list and boot once more |
| Recovery.Plan | daemon/internal/recovery/actions.go:51-67 | the applicable actions in their fixed order |
| Recovery.Execute | daemon/internal/recovery/actions.go:72-108 | outcome, error and commands equal the specification for every behaviour of wsl.exe |
| RepairSafety.ExecuteAnswers | daemon/internal/recovery/actions.go:72-87 | Execute is refused if and only if the action is unknown or an unconfirmed restart that applies; an outcome names the action asked for; one that starts nothing says "no longer applicable" |
| RepairSafety.PlayShape | daemon/internal/recovery/actions.go:82-105 | a script stops at its first failing command or at its end, each command being computed from the calls before it |
| RepairSafety.CarriedPlays | daemon/internal/recovery/actions.go:82-105 | a started action plays its script; it succeeds exactly when the script ends, and the result text names the failing half and its message |
| RepairSafety.ExecutedPlays | daemon/internal/recovery/actions.go:72-108 | Execute runs commands if and only if it starts the action; errors and "no longer applicable" run none |
| RepairSafety.ShutdownOnlyWhenAllowed | daemon/internal/recovery/actions.go:77-87 | a shutdown is issued if and only if a confirmed, applicable wsl.restart is executed, and only as its first command |
| RepairSafety.SuccessMeans | daemon/internal/recovery/actions.go:82-106 | success if and only if the action was started and every command succeeded; then the last command booted the default distro listed just before it |
| RepairSafety.StartImpliesRestart | daemon/internal/recovery/actions.go:140-176 | whenever wsl.start applies, wsl.restart does |
| RepairSafety.PlanShapes | daemon/internal/recovery/actions.go:51-67 | there are three plans: nothing, restart, start before restart; all are offered as safe and only the restart requires confirmation |
| RepairSafety.PlanIsWhatExecuteStarts | daemon/internal/recovery/actions.go:51-108 | an action is planned if and only if a confirmed Execute on the same components would run commands for it; unconfirmed, only wsl.start would |
| Agreement.SnapshotAgrees | daemon/internal/diagnosis/probes.go:81-136 | SafeToFix and a non-empty plan agree if and only if the wsl probe does not panic with a repair keyword in its message; without a panic the plan is exactly what the replies to that probe call for, after the calls of the probes before it |
| Agreement.DefaultAgrees | daemon/internal/diagnosis/probes.go:54-72 | the same for the default registry, where no command precedes those of the wsl probe |
| Agreement.RestartAppliesIff | daemon/internal/recovery/actions.go:172-176 | in a fresh snapshot a restart applies if and only if the machine needs anything |
| Agreement.CaseIsIgnored | daemon/internal/recovery/actions.go:119-127 | ASCII summaries that differ only in case mention the same keywords |
| Agreement.PanicHas | daemon/internal/health/health.go:60-66 | the panic prefix adds no keyword to a panic message |
| Agreement.PlanFromWsl | daemon/internal/recovery/actions.go:110-127 | the plan depends on the one wsl component alone |
| Agreement.NothingWithoutWsl | daemon/internal/recovery/actions.go:110-117 | no wsl component, no plan |
| Agreement.SnapshotLooks | daemon/internal/health/health.go:54-76 | no probe ever shuts anything down, whatever the machine answers |
| Daemon.Daemon.GetRepairPlan | daemon/internal/api/daemon.go:151-157 | a fresh snapshot and the plan for it |
| Daemon.Daemon.ExecuteRepair | daemon/internal/api/daemon.go:162-182 | answer and commands equal the specification; every outcome is published once and recorded once, a refusal neither |
| Daemon.RefusedIff | daemon/internal/api/daemon.go:162-173 | a request is refused if and only if recovery is missing, its id is empty or unknown, or it is a restart without confirmation that applies in the snapshot; with which code; and a refused one runs at most the probes |
| Daemon.OutcomesOfRequests | daemon/internal/api/daemon.go:162-182 | over any sequence of requests the outcomes, and so the events and records, are those of exactly the requests that are not rejected, in order |
| Daemon.Daemon.RecordRepair | daemon/internal/api/daemon.go:176-180 | a failed record is still an attempt; the row is stored unless the insert failed |
| Daemon.Serve | daemon/internal/api/daemon.go:162-182 | over any sequence of calls the replies are those of the specification, and outcomes, repair_executed events and record attempts correspond one to one, in order, field by field |
| Daemon.ServeThenRead | daemon/internal/api/daemon.go:126-182 | the repair history then answers with exactly those outcomes, newest first, up to the clamped limit, even if no prune ever works |
| Cli.Repair | cli/cmd/envorca/repair.go:28-95 | the command's result and the daemon's commands equal the specification |
| Cli.RunActions | cli/cmd/envorca/repair.go:74-88 | one call per planned action in order, failures counted |
| Cli.RequestShutdowns | cli/cmd/envorca/repair.go:76 | one request shuts down exactly once if it asks for wsl.restart with --yes and a restart applies in the fresh snapshot, and otherwise never; a restart that succeeded did |
| Cli.WholeRepairRuns | cli/cmd/envorca/repair.go:62-94 | a run is completed if and only if the plan arrives, is not empty and the user agrees or passed --yes; otherwise nothing runs after the plan; a completed one counts the failed requests, and shuts down exactly once if its last request reaches the daemon with --yes while a restart still applies, and otherwise never; "All repairs applied" is reported only in that case |
| Cli.FailuresAreCounted | cli/cmd/envorca/repair.go:73-93 | the number reported is the number of requests that were lost on either way, refused, or answered without success |
| Cli.DefaultRepairRuns | cli/cmd/envorca/repair.go:41-72 | on the default registry: nothing to repair is reported if and only if the machine needs nothing, and else the plan is what it needs |
| Cli.AllAppliedMeansStillBroken | cli/cmd/envorca/repair.go:74-92 | "All repairs applied" implies --yes and a machine that still needed repair just before the restart, so a start that works and stays up is reported as a failure |

## Left out

- Agreement.SnapshotAgrees: a panicking probe is taken to panic before it runs any command; a panic half-way through its commands is not modelled.
- Events.GrownCapacity: does not model the rounding of append to allocator size classes; the results hold for any larger capacity.
- Recovery.ToLower: case mappings between characters outside ASCII are left as they are, which no ASCII keyword can see.
- Recovery.UnknownAction: does not model the escapes that Go's quoting verb puts into unusual ids.
- Seam.NothingElseIsMissing: assumes fewer than 2^64 publishes; the wrap-around of the counter is modelled in `Events.Bus` only.
- UnmarkedBigEndian.AsciiReadsBackIffBlank: stated for ASCII text. Outside ASCII no condition on single characters decides it, because characters can change places (`UnmarkedBigEndian.PlacesChange`); such texts are not classified.
- WslOutput.UnmarkedRoundTrip: unmarked UTF-16 with no zero byte among its first 256 bytes is taken for UTF-8 by the code and is not read back.
- Cli.Repair: how the typed answer is parsed, dialling the daemon and all printing; the answer and what becomes of each call are parameters.
- Daemon.Daemon.GetRepairPlan: requires a wired recovery, since the original dereferences a nil one there.
- Concurrent RPC handlers that share one runner: repair calls are modelled one after the other.
- Context deadlines: a command that times out is a command that fails.
- GetStatus, OverallStatus, settings, `Distributions`, version strings and uptime: only easy members.
- Summary, description, reason and recommendation texts of actions and components that are only displayed.
- Probes of the Windows host, virtualization and memory: their answers are parameters.
- SQLite itself: tables are maps from ids to rows, transactions are atomic, and a commit that reports an error may or may not have happened.
- sort.Slice as an in-place algorithm: a sorting function with the same result.
- Timestamps, JSON payloads and the conversion of events to their wire form.
- The general regular-expression engine: only the one pattern is modelled.
- Graceful shutdown of the daemon, sockets, process spawning, logging and configuration.
