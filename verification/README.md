# Verified models of taskman

taskman is a task manager written in Rust. This project models the parts of it whose
correctness spans whole runs, and proves what they promise.

- **App history** (`History`, `HistoryCredits`, `HistoryDb`, `HistorySystem`, `HistoryRuns`,
  `Telescope`): the database that attributes cumulative counters to applications, its deferred
  and slow load, its deferred saves and its wipe, as an object and then as a transition system of
  user-interface thread, loader, FIFO channel, writer thread and disk in any interleaving.
  `HistoryRuns.FileIsRecord` says, number by number and from the steps and snapshots alone, what
  the database and the file hold.
- **Coalescing writers** (`Writers`): both background writers, shown to refine writing every
  save at once.
- **Sampling engine** (`Engine`, `EngineLedger`, `EngineHistory`): the lazily started command
  loop with its deadline cadence, the handles that write the shared interval cell, and the
  application that sends only on change. A log of what the thread did carries the statements
  about runs; mode, deadline, interval and reports are functions of it.
- **Settings** (`Text`, `Ini`, `IniReading`, `Values`, `Basics`, `Defaults`, `Preferences`,
  `LoadedTables`, `PrefsRoundTrip`, `Legacy`, `Settings`, `SettingsExact`, `SettingsFile`): the
  INI printer and reader down to single characters, the general section, the table sections, the
  migration of old width lists, what any text means line by line and key by key, and exactly
  which settings survive the round trip.
- **Self-extracting archive** (`Payload`, `Extraction`, `Paths`, `Acceptance`): writer, reader,
  extraction, and exactly what is accepted, in terms of paths, bytes and ranges.
- **Saved process rules** (`ProcessRules`, `RuleProgress`, `SecondAttempt`): the retry protocol
  over a bounded executor.
- **Tray handshake** (`Tray`): store, publish, load and post between two threads.
- **Arithmetic and counting** (`CivilDate`, `StartupImpact`, `StartupCredits`, `ImpactStore`,
  `GroupLoad`, `Selection`) and **file replacement under crashes** (`Persist`).

Code that changes state is modelled by classes and loops whose contracts give the whole new
state as a function of the old one; statements about runs are lemmas about those functions.
Protocols are step functions; a run folds them over an arbitrary list of steps, so each
theorem covers every interleaving. A step that its thread cannot take leaves the state alone.

Floats are real numbers. 64-bit counters are natural numbers with the source's saturation
written out where it has one; `History.WrappingAgrees` covers the unchecked additions, and
laws that need sums to fit say so.
Times are integers of a clock that never runs backwards. JSON, DEFLATE, SHA-256, float text,
the Unicode letter test and the order in which maps are walked are function-valued parameters;
`Payload.Faithful` and `Values.Faithful` list what is required of them. Reals that stand for
floats and widths in tenths are singled out by predicates among those parameters, so the
requirements can be met.

Where code and documentation differ, the model follows the code:

- The date formula never corrects the year for January and February, so the year shown is one
  less there (`CivilDate.ShownDateIsCalendar` says exactly when).
- The settings writer, unlike the history writer, drops a pending snapshot when its channel
  closes without a shutdown (`Writers.DisconnectKeepsIff`).
- Merging startup measurements twice is not always merging once
  (`ImpactStore.MergeIdempotentIff`).
- The cadence can run faster than its interval while a `set_interval` is half done
  (`EngineLedger.CadenceSpacingIff` says exactly when).
- The archive writer accepts empty files that the reader refuses (`Extraction.ParseAssembled`).
- Keys of settings are escaped when printed but not unescaped when read
  (`Ini.EntryReadsBackIff`, `SettingsExact.SettingsRoundTripIff`).
- A lost loader thread ends the load without a baseline, so a later save replaces the history
  (`HistorySystem.KeepsHistoryIff`).
- A process that is missing from one snapshot can be attempted twice at once
  (`SecondAttempt.SecondAttemptIff`).

`dafny verify dfyconfig.toml` verifies everything; on a slow machine add
`--verification-time-limit 0`.

## Model

| member | source | states |
|---|---|---|
| `History.EntriesGrow` | crates/tm-core/src/app_history.rs:498-585 | one snapshot never lowers an application's CPU time or traffic, removes an application or takes away known availability |
| `History.TotalsGrow` | crates/tm-core/src/app_history.rs:498-585 | the same over any sequence of snapshots |
| `History.MergeCommutes` | crates/tm-core/src/app_history.rs:293-334 | adding observations to a baseline before or after more observations gives the same totals, as long as the sums fit 64 bits |
| `History.PrevIsPreviousTick` | crates/tm-core/src/app_history.rs:498-585 | with unique pids the baseline map knows a process identity exactly if the last snapshot tracked it, with that snapshot's readings; a recycled pid counts as unknown |
| `History.DeltaIsCharge` | crates/tm-core/src/app_history.rs:498-585 | what one process is credited is its reading minus the previous snapshot's, and nothing on first sight |
| `History.TickCharge` | crates/tm-core/src/app_history.rs:498-585 | one snapshot moves an application's totals by the charges of its processes, CPU time up to 1e-6 s per process |
| `History.AttributionTelescopes` | crates/tm-core/src/app_history.rs:498-585 | over any clean run, an application's traffic is the sum, over the processes it was seen with and their maximal stretches of sightings, of (last - first); CPU time lies between that sum minus 1e-6 s per process and snapshot and that sum |
| `History.WrappingAgrees` | crates/tm-core/src/app_history.rs:555-559 | the totals of the model are those of 64-bit `+=` for as long as they fit 64 bits, over any run |
| `HistoryCredits.FiledUnderIff` | crates/tm-core/src/app_history.rs:73-81 | a process is filed under exactly one key: the path of its program without ASCII capitals, or its name if it has no usable path |
| `HistoryCredits.EntriesAreSighted` | crates/tm-core/src/app_history.rs:498-585 | after any run there is an entry exactly for every key that was there and every program of which some snapshot tracks a process: apps everywhere, background processes only off Windows, system processes never |
| `HistoryCredits.ShareEntryIff` | crates/tm-core/src/app_history.rs:73-81 | two tracked processes of a run have one entry between them exactly if their paths, or what stands in for them, agree up to ASCII case; each has exactly one |
| `HistoryCredits.TotalsAreWhatSightingsAdd` | crates/tm-core/src/app_history.rs:498-585 | over every run, recycled pids, missing counters and counters running backwards included, CPU time, traffic and availability of an entry are exactly the sums of what its sightings add: counter differences to the same process in the snapshot before, else rates over the window and all cores, and nothing below a microsecond and a byte |
| `HistoryCredits.AvailableIff` | crates/tm-core/src/app_history.rs:513-554 | traffic is shown as measured exactly if some sighting had a pair of counters or a rate |
| `Telescope.IdentsList` | crates/tm-core/src/app_history.rs:498-585 | the identities of an application, listed in the order of first sighting, are distinct and complete for every snapshot of the run |
| `Telescope.StepsTelescope` | crates/tm-core/src/app_history.rs:498-585 | adding up step by step what each reading adds to the one before equals adding up (last - first) per maximal stretch, whatever gaps the readings have |
| `Telescope.RunTelescopes` | crates/tm-core/src/app_history.rs:498-585 | the same for all identities of one application at once, over snapshots in which each identity occurs at most once |
| `HistoryCredits.MergeAddsUp` | crates/tm-core/src/app_history.rs:306-324 | merging adds CPU time and traffic, traffic up to what 64 bits hold, and keeps what only one side has |
| `HistoryDb.FoldProcesses` | crates/tm-core/src/app_history.rs:498-585 | the loop of `observe` computes the specified totals and next baselines |
| `HistoryDb.AddAll` | crates/tm-core/src/app_history.rs:306-324 | the merge loop adds every observed application to the baseline exactly once, in any order |
| `HistoryDb.AppHistoryDb.OpenDeferred` | crates/tm-core/src/app_history.rs:268-291 | a deferred open starts loading, empty, with nothing sent to the writer |
| `HistoryDb.AppHistoryDb.Observe` | crates/tm-core/src/app_history.rs:498-585 | nothing is observed while a load is awaited, unless the slow-load timeout has passed; otherwise the totals are those of the specification, about which `HistoryCredits.TotalsAreWhatSightingsAdd` and `HistoryCredits.ShareEntryIff` speak |
| `HistoryDb.AppHistoryDb.ApplyLoadedFile` | crates/tm-core/src/app_history.rs:293-334 | the file's totals and start date are taken over and added to what was observed meanwhile; an unreadable file changes nothing |
| `HistoryDb.AppHistoryDb.TryAdopt` | crates/tm-core/src/app_history.rs:405-444 | `poll_load`: adopt an answer, give up on a lost loader, switch to observing on timeout, and say whether anything completed |
| `HistoryDb.AppHistoryDb.Finish` | crates/tm-core/src/app_history.rs:446-452 | the load ends and a save asked for meanwhile is sent once; `HistoryRuns.SentExactly` says so of every run |
| `HistoryDb.AppHistoryDb.Enqueue` | crates/tm-core/src/app_history.rs:470-481 | a save during a load is deferred; otherwise it carries the next generation and the present totals |
| `HistoryDb.AppHistoryDb.SaveAndFlush` | crates/tm-core/src/app_history.rs:483-491 | the blocking save sends the snapshot and then a flush, or only defers the save during a load |
| `HistoryDb.AppHistoryDb.Wipe` | crates/tm-core/src/app_history.rs:365-377 | `clear`: forget everything including an unfinished load, and send one save |
| `HistoryDb.SlowLoadCommutes` | crates/tm-core/src/app_history.rs:293-334 | observing part of a run before the baseline arrives ends with the same totals, baselines and start date as a baseline that was there first |
| `HistorySystem.OrderedStep` | crates/tm-core/src/app_history.rs:197-241 | in every interleaving generations strictly increase from the writer's slot through the channel up to the database's own |
| `HistorySystem.TrailStep` | crates/tm-core/src/app_history.rs:197-241 | each step leaves the files written, pending and queued as they are, appends the database's present snapshot, or forgets one that a newer one overtook |
| `HistorySystem.NeverLosesHistory` | crates/tm-core/src/app_history.rs:405-491 | in every interleaving without a wipe in which no poll meets a lost loader while loading, nothing is written before the baseline is adopted, and every file written contains the starting file and every earlier written one |
| `HistorySystem.UndisturbedIff` | crates/tm-core/src/app_history.rs:405-444 | in a run without a wipe, a poll met a lost loader exactly if the load is over and the loader thread is dead |
| `HistorySystem.KeepsHistoryIff` | crates/tm-core/src/app_history.rs:405-491 | in any run without a wipe that wrote something, every file written contains the starting file and keeps its date if and only if no poll met a lost loader, the file being older than the session |
| `HistorySystem.LostLoaderLosesHistory` | crates/tm-core/src/app_history.rs:405-444 | such a run in five steps: the loader is lost, the poll gives up, and the saved history is overwritten by an empty one |
| `HistorySystem.WipeWins` | crates/tm-core/src/app_history.rs:365-377 | whatever happened before a wipe and even if the loader answers late, once the writer has drained the file holds exactly what was observed between the wipe and the last save |
| `HistoryRuns.SentExactly` | crates/tm-core/src/app_history.rs:446-491 | in every interleaving a step puts a save into the channel exactly if it is a wipe, a request after the load, or the poll that ends the load after one or more requests; it is one save, of the next generation, with what the database then holds, and a blocking request adds a flush |
| `HistoryRuns.DrainedIsLastSave` | crates/tm-core/src/app_history.rs:446-491 | no save is lost: in every interleaving, once the writer has drained, the file is what the database held when the last save was sent, and the untouched old file if none was |
| `HistoryRuns.FileTellsTheStory` | crates/tm-core/src/app_history.rs:293-334 | at every moment the database holds the baseline, if a poll took it and no wipe came, plus what was observed since the last wipe and not skipped while waiting for the load; the drained file holds the same as of the last save |
| `HistoryRuns.FileIsRecord` | crates/tm-core/src/app_history.rs:293-585 | the same number by number, without any operation of the database in the statement: date, keys, CPU time, traffic and availability of every entry, in the database and in the drained file |
| `HistoryRuns.BlockingSaveReachesDisk` | crates/tm-core/src/app_history.rs:483-491 | after a blocking save following the load, as soon as the writer has worked off its channel the present state is on disk |
| `HistoryRuns.PollReports` | crates/tm-core/src/app_history.rs:405-444 | `poll_load` answers true exactly if the call ended the load or resumed observation |
| `HistoryRuns.NoWriterSendsNothing` | crates/tm-core/src/app_history.rs:470-491 | a database without a writer thread never sends anything |
| `Writers.HistoryRefines` | crates/tm-core/src/app_history.rs:197-241 | with increasing generations the coalescing writer is indistinguishable, at flush replies and at its end, from writing every save at once, and writes move forward in save order |
| `Writers.PendingIsNewest` | crates/tm-core/src/app_history.rs:194-235 | in whatever order generations arrive, an older snapshot never takes a newer one's place: what waits is the first save of the highest generation since the last write |
| `Writers.HistoryEndsDrained` | crates/tm-core/src/app_history.rs:237-241 | the history writer never ends with a snapshot still pending |
| `Writers.HistoryWriterLoop` | crates/tm-core/src/app_history.rs:197-241 | the loop over its channel: flush replies and final file are those of writing at once; the files written are a subsequence of the saves |
| `Writers.HistoryQuietIsWritten` | crates/tm-core/src/app_history.rs:204-213 | when no command comes for a while, the newest snapshot is on disk and nothing is left to write |
| `Writers.SettingsRefines` | crates/tm-core/src/settings.rs:1071-1114 | the settings writer refines writing at once without generations |
| `Writers.SettingsEndsDrained` | crates/tm-core/src/settings.rs:1062-1114 | it ends with nothing pending because its owner sends a shutdown before the channel closes |
| `Writers.DisconnectKeepsIff` | crates/tm-core/src/settings.rs:1071-1114 | without that shutdown the newest settings reach the disk exactly if nothing different from the file was pending |
| `Writers.SettingsWriterLoop` | crates/tm-core/src/settings.rs:1071-1114 | the loop over its channel, proved as for the history writer |
| `Writers.SettingsQuietIsWritten` | crates/tm-core/src/settings.rs:1071-1090 | when no command comes for a while, the newest settings are on disk and nothing is left to write |
| `Engine.EngineThread.TakeSample` | crates/tm-core/src/engine.rs:279-321 | a good sample is published and counted, an unsupported collector pauses the engine, a failure is counted and reported at most every 30 s |
| `Engine.EngineThread.Begin` | crates/tm-core/src/engine.rs:374-401 | the collector is made with the remembered demand and background; a remembered pause takes one sample and then pauses |
| `Engine.EngineThread.WhileParked` | crates/tm-core/src/engine.rs:338-368 | before the start, configuration is remembered, the newest value of each kind winning, and samples are not taken |
| `Engine.EngineThread.LoopHead` | crates/tm-core/src/engine.rs:402-409 | a cadence sample is taken only when running and due, and re-arms the deadline from its start |
| `Engine.EngineThread.WhileRunning` | crates/tm-core/src/engine.rs:421-464 | each command's effect on mode, deadline, configuration and samples; only SampleNow replies, and only with the sample it took; `EngineHistory.ModeIsLastDecision` and `EngineHistory.ResumeSamplesAtOnce` say what the effects amount to |
| `Engine.RefreshKeepsMode` | crates/tm-core/src/engine.rs:446-460 | Refresh and SampleNow take exactly one sample, restart the cadence and keep the mode, unless the collector is unsupported |
| `Engine.CommandEffect` | crates/tm-core/src/engine.rs:338-462 | a command changes exactly the configuration value it names, whether parked or running |
| `Engine.ConfigurationAgrees` | crates/tm-core/src/engine.rs:143-146 | wherever Start falls among the commands, a started engine with an empty channel runs on the last demand, background and interval sent, unless a `set_interval` is between its write and its send |
| `Engine.SendingOnChangeSuffices` | crates/tm-app/src/app.rs:1173-1227 | although the application sends demand and visibility only on change, the collector ends up on the application's own idea of them |
| `Engine.StoppedIsFinal` | crates/tm-core/src/engine.rs:461-469 | after a stop no later step changes the mode, the snapshot or the tick count |
| `EngineLedger.EngineKeepsLedger` | crates/tm-core/src/engine.rs:251-470 | over every run the tick counter counts the good samples, `latest` is the last good one, the factory runs at most once, as many samples are forced as Refresh and SampleNow commands are handled by the loop, and failures are counted since the last success |
| `EngineLedger.ForcedExactlyOnRequest` | crates/tm-core/src/engine.rs:446-460 | each Refresh and SampleNow handled by the loop is answered by one sample at once, and no other sample is forced |
| `EngineLedger.FirstSampleHonoursPause` | crates/tm-core/src/engine.rs:385-392 | the extra sample at the start happens at most once and only after a Pause that no Resume took back |
| `EngineLedger.CadenceOnlyWhenDue` | crates/tm-core/src/engine.rs:402-409 | cadence samples happen only while running, at or after the deadline, with a collector made before |
| `EngineLedger.PauseSilencesCadence` | crates/tm-core/src/engine.rs:323-400 | from a Pause to the next Resume there is no cadence sample, also when the Pause came before the start |
| `EngineLedger.CadenceAfterSample` | crates/tm-core/src/engine.rs:402-409 | a cadence sample comes no sooner than the interval its predecessor read, unless re-armed in between |
| `EngineLedger.CadenceSpacing` | crates/tm-core/src/engine.rs:395-465 | a condition read off the log: two cadence samples are at least the interval apart if no Resume or SetInterval is handled and no handle writes the interval cell between them |
| `EngineLedger.CadenceSpacingIff` | crates/tm-core/src/engine.rs:395-465 | the exact condition: with sample k the last one and nothing re-armed since, no next tick can come less than the interval after tick i if and only if the deadline k left is no earlier than that, or that much time has passed |
| `EngineLedger.HalfDoneIntervalShortensCadence` | crates/tm-core/src/engine.rs:143-146 | a run that fails it: a half-done `set_interval` and a Refresh bring two ticks of a 1000 ms cadence 501 ms apart |
| `EngineHistory.StateFollowsLog` | crates/tm-core/src/engine.rs:251-470 | over every run mode, deadline, interval and failure reports are what the log says, every sample in it tells the truth about when and why it was taken, and the loop head samples exactly if the log says running and due |
| `EngineHistory.ModeIsLastDecision` | crates/tm-core/src/engine.rs:385-461 | over every run the engine is running, paused or stopped if and only if the last of its making, Pause, Resume, Shutdown, an unsupported sample and the sample of a paused start decided so |
| `EngineHistory.ResumeSamplesAtOnce` | crates/tm-core/src/engine.rs:434-444 | after a Resume handled while paused the engine runs and any look of the loop head samples, until it has sampled, is paused or stopped, or gets another interval |
| `EngineHistory.SetIntervalCountsFromLastSample` | crates/tm-core/src/engine.rs:421-425 | a new interval makes the next tick due exactly that long after the last sample, neither earlier nor later |
| `EngineHistory.PausedStartSamplesOnce` | crates/tm-core/src/engine.rs:374-392 | the start takes one sample and pauses exactly if a Pause stands that no Resume took back, and else runs without one |
| `EngineHistory.IntervalAgrees` | crates/tm-core/src/engine.rs:143-146 | with every write of the interval cell followed by its send and the channel empty, a started engine runs on the interval last sent |
| `EngineHistory.CommandsInOrder` | crates/tm-core/src/engine.rs:421-464 | commands are conserved: those handled and those still queued are those sent, in that order, over every run |
| `Ini.UnescapeIni` | crates/tm-core/src/settings.rs:347-367 | the loop computes the unescaped text |
| `Ini.UnescapeEscape` | crates/tm-core/src/settings.rs:341-367 | unescaping an escaped text followed by anything gives the text followed by the rest unescaped, for all strings |
| `Ini.EscapeOne` | crates/tm-core/src/settings.rs:341-345 | the three replacement passes never touch each other's output |
| `Ini.TrimEscape` | crates/tm-core/src/settings.rs:320-334 | trimming an escaped value removes exactly the white space at its ends other than newlines |
| `Ini.EntryReadsBackIff` | crates/tm-core/src/settings.rs:317-345 | a printed entry line is read as the written key and value exactly if the key is non-empty, trimmed, lower case, free of backslash, semicolon, newline and equals sign, no comment, not bracketed with the value, and the value keeps its ends |
| `Ini.HeaderReadsBackIff` | crates/tm-core/src/settings.rs:325-328 | a section header is read as the written name exactly if the name is trimmed and lower case |
| `Ini.ParseIni` | crates/tm-core/src/settings.rs:317-338 | the loop over lines computes the specified keys |
| `IniReading.KeyHasValueIff` | crates/tm-core/src/settings.rs:317-338 | for every text: a key of a section has a value exactly if some line gives it that value and no later line gives it one; a line counts for the last header before it, is cut at its first equals sign, and is neither a comment nor malformed |
| `IniReading.UnescapeLeaves` | crates/tm-core/src/settings.rs:347-367 | a text in which no backslash starts an escape, such as a path typed by hand, is read as it stands |
| `Ini.FeedBlocks` | crates/tm-core/src/settings.rs:317-436 | a text of printed sections is read as exactly the entries of those sections, under their keys as printed, that is with escapes |
| `Ini.CleanIsPlainLoose` | crates/tm-core/src/settings.rs:317-345 | the entries that read back exactly are those whose key needs no escape among those that are read at all |
| `Ini.GoodFeed` | crates/tm-core/src/settings.rs:317-338 | whatever the text, every key that is read is trimmed, lower case, free of equals signs and newlines and starts no comment, in a section with a clean name |
| `Ini.FoundAllEscaped` | crates/tm-core/src/settings.rs:341-345 | a key found in a printed text is the escaped form of some printed id |
| `PrefsRoundTrip.SlugIsClean` | crates/tm-core/src/settings.rs:384-433 | lower-case slugs with a trimmed value always read back |
| `PrefsRoundTrip.EscapedIdIsLost` | crates/tm-core/src/settings.rs:386-388 | an id with a semicolon does not: keys are escaped when printed and never unescaped when read |
| `Preferences.SectionNames` | crates/tm-core/src/settings.rs:784-846 | a printed section name stands for its own table and kind and no other, except width sections of tables ending in `.visible` or `.order` |
| `Preferences.CellsRead` | crates/tm-core/src/settings.rs:784-847 | reading gives every width, visibility, order and sort cell the value of the one key that names it, whatever the order of the keys, and leaves no empty table behind |
| `Preferences.RulesComeFrom` | crates/tm-core/src/settings.rs:802-808 | every process rule taken over was read from some key of its section |
| `Preferences.RulesArrive` | crates/tm-core/src/settings.rs:802-808 | every key that holds a usable rule gives its path one |
| `PrefsRoundTrip.SortReadsBackIff` | crates/tm-core/src/settings.rs:787-801 | a sort order is read back exactly if its column is not empty and not padded |
| `PrefsRoundTrip.LookRule` | crates/tm-core/src/settings.rs:421-434 | rule numbers never collide, so no printed rule hides another |
| `PrefsRoundTrip.PrefsReadBack` | crates/tm-core/src/settings.rs:783-847 | maps that can be stored are read back unchanged: widths, visibility, orders, sort choices and process rules |
| `Values.U32RoundTrip` | crates/tm-core/src/settings.rs:474-476 | decimal text of a 32-bit number is parsed back |
| `Defaults.NumeralMeans` | crates/tm-core/src/settings.rs:474-476 | number texts are exactly an optional plus sign, any zeros and the decimal digits of a 32-bit number |
| `Values.SplitJoinIff` | crates/tm-core/src/settings.rs:401-409 | splitting undoes joining exactly for non-empty lists of parts without the separator |
| `Basics.ReadIsInRange` | crates/tm-core/src/settings.rs:664-776 | whatever the file says, every general value read is in its legal range |
| `Defaults.BasicsMeanIff` | crates/tm-core/src/settings.rs:664-776 | each general value is what the text of its own key stands for (accepted words and synonyms, clamps, ranges, older names of a key), or the default if the key is missing or its text is not accepted, and depends on no other key but whether the window is remembered; exactly one record fits |
| `Defaults.LoadedBasicsIff` | crates/tm-core/src/settings.rs:664-776 | the same for every text, with what its lines give for each key |
| `Defaults.EmptyGivesDefaults` | crates/tm-core/src/settings.rs:277-315 | an empty text gives the default record, spelled out, and no table settings |
| `LoadedTables.LoadedTablesIff` | crates/tm-core/src/settings.rs:783-864 | for every text, table and column: a width from 40 to 1200 is loaded exactly if the table's own section gives it, or that gives none and the old section does by position; visibility, order and sort order exactly if their sections give them |
| `Basics.BasicLook` | crates/tm-core/src/settings.rs:915-941 | each of the 23 general keys is printed once and found with its own text |
| `Settings.BasicsReadBackIff` | crates/tm-core/src/settings.rs:664-776 | the general section is read back exactly if every value is in range, including the default window size when it is not remembered |
| `PrefsRoundTrip.SlugsAreStorable` | crates/tm-core/src/settings.rs:369-436 | maps whose tables and columns are dot-free slugs, with widths in tenths between 40 and 1200 and nothing empty, can be stored |
| `Settings.SlugSettingsRoundTrip` | crates/tm-core/src/settings.rs:664-961 | such settings with in-range general values are loaded exactly as they were saved |
| `Settings.SettingsRoundTrip` | crates/tm-core/src/settings.rs:664-961 | settings that can be stored, with general values in range, are loaded exactly as they were saved |
| `SettingsExact.LoadedIsLoadable` | crates/tm-core/src/settings.rs:664-871 | whatever the text, the loaded general values are in range, nothing loaded is empty, and every id, name, width, order, sort choice and rule is one a file can hold |
| `SettingsExact.PrintedArePlain` | crates/tm-core/src/settings.rs:341-345 | ids that are all printed forms of ids among them need no escape, because one that did would be the printed form of a shorter such id, and so on |
| `SettingsExact.SurvivorsAreStorable` | crates/tm-core/src/settings.rs:382-420 | maps that survive saving and loading have ids that need no escape and widths that are printed exactly |
| `SettingsExact.SettingsRoundTripIff` | crates/tm-core/src/settings.rs:664-961 | for all settings: saving and loading gives the same settings if and only if the general values are in range and the maps are what a file can hold, with ids that need no escape and widths that are printed exactly |
| `SettingsExact.LoadedSettingsAreStableIff` | crates/tm-core/src/settings.rs:664-961 | settings loaded from any text survive the next save and load if and only if their ids need no escape and their widths are printed exactly |
| `SettingsExact.LoadedBasicsAreStable` | crates/tm-core/src/settings.rs:664-961 | general settings read from any file survive the next save and load beside any maps that can be stored |
| `Legacy.ParseWidths` | crates/tm-core/src/settings.rs:488-499 | the loop accepts a width list exactly if every part is a positive number |
| `Legacy.MigratePositionalWidths` | crates/tm-core/src/settings.rs:523-533 | the loop computes the specified column widths |
| `Legacy.PairsAt` | crates/tm-core/src/settings.rs:523-533 | position i of an old list lands on the i-th known column if it is between 40 and 1200, and nowhere else |
| `Legacy.ExplicitWidthWins` | crates/tm-core/src/settings.rs:849-864 | migration fills in exactly the widths no id-keyed section set, and changes nothing else |
| `Legacy.MigrateWidths` | crates/tm-core/src/settings.rs:849-864 | the migration loop computes that |
| `SettingsFile.RenderIni` | crates/tm-core/src/settings.rs:369-436 | the printing loops produce the header, the given body and the specified sections |
| `SettingsFile.Save` | crates/tm-core/src/settings.rs:915-956 | the saved text is the specified one |
| `SettingsFile.ReadPrefs` | crates/tm-core/src/settings.rs:783-847 | the reading loop computes the specified maps and notices the old section |
| `SettingsFile.FromIniText` | crates/tm-core/src/settings.rs:664-871 | loading a text computes the specified settings; what they are for any text is said by `Defaults.LoadedBasicsIff` and `LoadedTables.LoadedTablesIff` |
| `Payload.WriteBlobs` | crates/tm-installer/src/payload.rs:130-155 | the writer refuses the first invalid or repeated name, and else lays blobs out back to back with their manifest entries |
| `Payload.WriterAcceptsIff` | crates/tm-installer/src/payload.rs:130-155 | it accepts exactly lists of distinct valid names |
| `Acceptance.ValidNameIff` | crates/tm-installer/src/payload.rs:76-98 | a name is valid exactly if, joined to any directory, it leads to a file of that very name in it (no separator, drive or stream, not empty, `.` or `..`), and it has at most 128 bytes, no leading dot, no two dots in a row and no white space at an end |
| `Acceptance.WriterAcceptsPlainNames` | crates/tm-installer/src/payload.rs:130-155 | the writer accepts exactly lists of distinct names of this kind |
| `Payload.BuildPayload` | crates/tm-installer/src/payload.rs:162-171 | blobs, manifest and footer are assembled, or the writer's error is returned |
| `Payload.LeRoundTrip` | crates/tm-installer/src/payload.rs:209-213 | the little-endian length in the footer is read back |
| `Payload.CheckEntries` | crates/tm-installer/src/payload.rs:253-264 | the first loop reports the first bad entry, or the exact end of the blob region |
| `Payload.NeighboursSuffice` | crates/tm-installer/src/payload.rs:283-291 | on sorted non-empty ranges comparing neighbours detects exactly the overlaps |
| `Payload.NoOverlap` | crates/tm-installer/src/payload.rs:272-291 | the sorted-neighbours test accepts exactly manifests whose ranges are pairwise disjoint |
| `Payload.Parse` | crates/tm-installer/src/payload.rs:203-294 | the reader's checks, in the source's order and with its errors; `Acceptance.ParseAcceptsIff` and `Acceptance.ComplaintIsTrue` say what they amount to |
| `Acceptance.ParseAcceptsIff` | crates/tm-installer/src/payload.rs:203-294 | a file parses, and as this archive, exactly if it is some executable, the blob region, a manifest text, its length and the mark, the text means a version 1 manifest, and that has entries with names that stay inside, sizes above zero and ranges that share no byte and end exactly at the region's end |
| `Acceptance.ComplaintIsTrue` | crates/tm-installer/src/payload.rs:203-294 | whatever the reader complains of is true of the file |
| `Acceptance.UnpackedStaysInside` | crates/tm-installer/src/payload.rs:349-363 | for whatever file is parsed and any target directory, every entry's path is that directory's plus one part, its name |
| `Acceptance.ReadEntryIff` | crates/tm-installer/src/payload.rs:312-331 | an entry is read as certain bytes exactly if its range lies in the region, the stream there inflates soundly to them, and they have the declared length and hash (the largest length aside) |
| `Acceptance.ExtractedIsVerified` | crates/tm-installer/src/payload.rs:349-363 | after a complete extraction every entry's file has the declared length and hash |
| `Extraction.AcceptedIsSound` | crates/tm-installer/src/payload.rs:203-294 | whatever parses has valid names, ranges inside a blob region that ends where the manifest starts, pairwise disjoint, and no later addition or slice can leave its range |
| `Extraction.InflateBoundedIff` | crates/tm-installer/src/payload.rs:100-117 | inflation succeeds exactly for sound streams of the declared length (the largest length aside), with those bytes |
| `Extraction.InflateErrors` | crates/tm-installer/src/payload.rs:100-117 | which error a stream that is not accepted gets: more than the declared length is the wrong size whatever follows, else a broken stream is broken and a sound shorter one the wrong size |
| `Extraction.WrittenErrors` | crates/tm-installer/src/payload.rs:253-264 | the reader's only complaint about what the writer wrote is an empty file |
| `Extraction.ParseAssembled` | crates/tm-installer/src/payload.rs:130-294 | behind any executable, parsing a built payload recovers manifest and blobs exactly if there is a file and none is empty |
| `Extraction.RoundTrip` | crates/tm-installer/src/payload.rs:312-331 | every file is read back byte for byte |
| `Extraction.Target.ExtractTo` | crates/tm-installer/src/payload.rs:349-363 | nothing is written unless every entry verifies, and then the entries are written in order until an operation fails |
| `Extraction.InstallRoundTrip` | crates/tm-installer/src/payload.rs:130-363 | build, append, parse and extract: the directory gains exactly the original files and keeps all others |
| `ProcessRules.SavedRules.ApplySavedProcessRules` | crates/tm-app/src/app.rs:1018-1162 | one snapshot: forget the dead, settle finished attempts, dispatch what is due |
| `ProcessRules.RetryLedger` | crates/tm-app/src/app.rs:1018-1162 | for a process that stays alive, dispatches are failed attempts, successes and at most one outstanding; at most three fail; nothing follows a success; the warning comes exactly with the third failure |
| `RuleProgress.AttemptedExactlyWhenDue` | crates/tm-app/src/app.rs:1066-1162 | over every run, for a process that stays alive: a snapshot starts one attempt exactly if rules are on, the process is not the program itself and has a saved rule that says something, no attempt succeeded or is under way, and fewer than three failed |
| `RuleProgress.FinishReports` | crates/tm-app/src/app.rs:1110-1137 | a job that finishes leaves the outstanding ones and reports success or failure of its own process, once |
| `ProcessRules.VanishingStartsSecondAttempt` | crates/tm-app/src/app.rs:1033-1038 | staying alive is needed: one snapshot without the process leads to two attempts at once |
| `SecondAttempt.SecondAttemptIff` | crates/tm-app/src/app.rs:1018-1162 | over any run with unique pids in which processes come and go, two attempts at one process are outstanding together for the first time exactly when a snapshot missed it while its attempt was outstanding, that attempt has not ended, and a snapshot finds it due while the executor has room |
| `SecondAttempt.BooksRun` | crates/tm-app/src/app.rs:1033-1064 | an outstanding attempt is in the in-flight set, with no result waiting, exactly unless a snapshot missed the process meanwhile |
| `ProcessRules.ActionExecutor.TryQueue` | crates/tm-app/src/action_executor.rs:71-95 | a job goes to the back of the first lane in turn with room, or nowhere; full and disconnected are told apart |
| `ProcessRules.ActionExecutor.RunQuiet` | crates/tm-app/src/action_executor.rs:136-153 | accepted exactly if some connected lane has room |
| `ProcessRules.OfferedAt` | crates/tm-app/src/action_executor.rs:71-95 | the walk from any starting lane meets every lane |
| `RuleProgress.FailuresFitAByte` | crates/tm-app/src/app.rs:1045-1051 | over every run no count of failures leaves a byte |
| `RuleProgress.LanesStayBounded` | crates/tm-app/src/action_executor.rs:37-48 | no lane ever holds more than 32 jobs, and a connected lane that refuses one holds that many |
| `Tray.HandshakeIsRaceFree` | crates/tm-app/src/main.rs:1117-1151 | in every interleaving, whenever both threads rest an icon shows what was last asked for, and after a shutdown none is visible |
| `Tray.IconShowsLastWish` | crates/tm-app/src/main.rs:1117-1186 | the same with the wish told from the calls alone |
| `Tray.TrayProgram` | crates/tm-app/src/main.rs:1066-1101 | the tray thread moves only along its program, and only its own actions change the icon |
| `Tray.Settles` | crates/tm-app/src/main.rs:1066-1101 | once the user interface is done the tray thread alone reaches rest and applies the last wish |
| `Tray.TrayShell.SetVisible` | crates/tm-app/src/main.rs:1128-1151 | store, load and post, as three steps of the protocol |
| `Tray.TrayShell.Shutdown` | crates/tm-app/src/main.rs:1169-1186 | store, claim the id and post the quit, as three steps of the protocol |
| `CivilDate.ShownDateIsCalendar` | crates/tm-core/src/format.rs:261-282 | month and day are the Gregorian ones for every day; the year is right exactly for the first 306 days after 1 March and one less otherwise |
| `CivilDate.CorrectedIsCalendar` | crates/tm-core/src/format.rs:261-282 | with the year corrected in January and February the formula is the calendar counted day by day from 1970 |
| `CivilDate.JanuaryShowsPreviousYear` | crates/tm-core/src/format.rs:261-282 | 15 January 2026 is shown as a day of 2025 |
| `CivilDate.ShownDateInverse` | crates/tm-core/src/format.rs:261-282 | an explicit inverse gives the day back |
| `CivilDate.ShownDateInjective` | crates/tm-core/src/format.rs:261-282 | different days are shown differently |
| `CivilDate.EpochDayIff` | crates/tm-core/src/format.rs:262 | the day of a second is the one whose 86,400 seconds it is one of, also before 1970 |
| `StartupImpact.StartupImpactTracker.Feed` | crates/tm-core/src/startup_impact.rs:123-195 | the loop computes totals, baselines, the end of the window and whether anything changed |
| `StartupImpact.ImpactTelescopes` | crates/tm-core/src/startup_impact.rs:123-195 | an image's total is the sum, over its processes with known or unknown start time and their maximal stretches, of (last - base), the base being zero for processes started at or after boot and the first reading otherwise: a gap charges the former from zero again |
| `StartupImpact.ImpactWithoutGaps` | crates/tm-core/src/startup_impact.rs:123-195 | without gaps it is the last reading minus the base, once per process, with known or unknown start time |
| `StartupImpact.UnknownStartBridges` | crates/tm-core/src/startup_impact.rs:151-153 | a process of unknown start time is charged the difference to whatever had its pid, the same process or not |
| `StartupImpact.TrackerIsMergeable` | crates/tm-core/src/startup_impact.rs:123-195 | what the tracker hands over is never empty and belongs to its boot |
| `StartupCredits.MeasuredIsCost` | crates/tm-core/src/startup_impact.rs:123-195 | over every run, recycled pids, gaps, lost or unknown start times and counters running backwards included, an image's measurement is what its readings before 120 seconds of uptime add, up to 64 bits; images that add nothing have none, and the tracker is active exactly as long as every snapshot came before that |
| `StartupCredits.DirtyIffMeasured` | crates/tm-core/src/startup_impact.rs:123-195 | the tracker says that there is something to save exactly if it measured something |
| `ImpactStore.MergeInto` | crates/tm-core/src/startup_impact.rs:260-275 | the merge loop keeps the newer boot per image, drops empty entries, and reports whether it replaced anything |
| `ImpactStore.MergeIdempotentIff` | crates/tm-core/src/startup_impact.rs:260-275 | merging twice is merging once exactly if no empty entry of a newer boot hides a real measurement |
| `ImpactStore.MergedStoresAreWorth` | crates/tm-core/src/startup_impact.rs:260-275 | a store that was merged into meets that condition for every later merge |
| `ImpactStore.MergeOrderIndependent` | crates/tm-core/src/startup_impact.rs:260-275 | measurements of different boots may be merged in either order |
| `ImpactStore.StoreHoldsTheLatest` | crates/tm-core/src/startup_impact.rs:260-275 | boot after boot, and save after save within a boot, the store holds each image's latest measurement |
| `Selection.Selection.ToggleOne` | crates/tm-app/src/selection.rs:112-128 | remove or insert one row, with primary and anchor |
| `Selection.Selection.ExtendTo` | crates/tm-app/src/selection.rs:132-151 | the inclusive range from the anchor in display order |
| `Selection.Selection.Retain` | crates/tm-app/src/selection.rs:171-179 | drop dead rows; the primary follows |
| `Selection.SelectionStaysSound` | crates/tm-app/src/selection.rs:90-193 | over every gesture sequence items stay duplicate-free and the primary is one of them, present exactly if there are any |
| `Selection.SortArranges` | crates/tm-app/src/selection.rs:184-192 | sorting a selection gives the visible rows in display order and then the others as they were |
| `Selection.ToggleInsertOrder` | crates/tm-app/src/selection.rs:112-128 | so does adding a row by Ctrl+click |
| `Selection.ToggleOff` | crates/tm-app/src/selection.rs:112-128 | Ctrl+click on a selected row removes it and keeps the order of the rest |
| `Selection.ToggleTwice` | crates/tm-app/src/selection.rs:112-128 | Ctrl+clicking a row twice restores a selection in display order |
| `Selection.ClickPrimary` | crates/tm-app/src/selection.rs:112-167 | after a click the acted-on row is the clicked one, unless the click took it out: then it stays, or is the last remaining row if it was the one taken out |
| `Selection.ClickAnchor` | crates/tm-app/src/selection.rs:112-167 | the anchor is the row of the last plain or Ctrl click, or of the Shift click that had to start anew |
| `Selection.ShiftWalk` | crates/tm-app/src/selection.rs:132-151 | after a plain click any series of Shift clicks leaves exactly the slice between the click and the last of them |
| `Selection.RefreshKeepsExactlyTheLive` | crates/tm-app/src/selection.rs:171-179 | a refresh keeps exactly the live rows and leaves no dead primary or anchor |
| `Selection.RefreshPrimary` | crates/tm-app/src/selection.rs:171-179 | a refresh keeps a live primary, else moves to the last live row, and moves a dead anchor there too |
| `Persist.FileSystem.ReplaceFile` | crates/tm-core/src/persist.rs:15-30 | after success or failure at any step, what a crash may leave at the destination is what it might have left before or, on success, the complete new contents; running programs see the new contents exactly on success |
| `Persist.FileSystem.Prepare` | crates/tm-core/src/persist.rs:24-27 | until the rename no prefix of the steps changes what the destination holds or may hold, and success means the temporary file is complete and on disk |
| `Persist.RenameSafe` | crates/tm-core/src/persist.rs:27-29 | renaming a synced file adds exactly its full contents to what a crash may leave |
| `Persist.UnsyncedRenameMayLoseEverything` | crates/tm-core/src/persist.rs:27-29 | the sync is needed: without it a crash after the rename may leave anything |
| `Persist.RebootSafe` | crates/tm-core/src/persist.rs:15-30 | after a crash in any state the destination holds one of the possible contents and the next replacement starts safely, which follows from what every directory state keeps |
| `GroupLoad.BusiestShare.Add` | crates/tm-core/src/model.rs:296-308 | adding a member keeps the accumulators equal to the group's per-resource and plain totals |
| `GroupLoad.BusiestShare.Pct` | crates/tm-core/src/model.rs:310-318 | the reading is the group's load: unknown exactly if no member was measured, else the clamped largest total |
| `GroupLoad.OrderIndependent` | crates/tm-core/src/model.rs:276-319 | the load does not depend on the order of the members |
| `GroupLoad.LoadOfUnion` | crates/tm-core/src/model.rs:276-319 | two groups together are unknown exactly if both are, and else at least as loaded as each and at most as their sum |
| `GroupLoad.SingleMember` | crates/tm-core/src/model.rs:276-319 | the load of one member whose own value is its busiest share is that value |
| `GroupLoad.LoadIs` | crates/tm-core/src/model.rs:310-318 | whatever value is at least every total and one of them is the one the load is clamped from |
| `GroupLoad.LoadIsPercentage` | crates/tm-core/src/model.rs:310-318 | the load lies in 0 to 100 and is the peak wherever that does |
| `Text.TrimIff` | crates/tm-installer/src/payload.rs:76-98 | trimming changes exactly the strings with white space at an end, so the name check refuses exactly those |
| `Text.TrimIsCore` | crates/tm-core/src/settings.rs:320-334 | what trimming gives is exactly the core of the text that remains without the white space around it |

## Left out

- App history: a process's two network counters are taken to fit 64 bits together; display names and icon paths, which merge by other rules than usage; `set_aside` for unreadable files; the directory and file names.
- `HistorySystem`: `flush` waits at most three seconds in the source; here the caller's wait is not modelled, only the flush in the channel. Opening without a worker thread is left to `HistoryDb`.
- HistoryDb.SlowLoadCommutes: assumes that the added traffic fits 64 bits, because saturating addition does not commute with observation once it saturates.
- Writers.HistoryWriterLoop, Writers.SettingsWriterLoop: every write succeeds; the 200 ms window is a timeout event that may come at any time.
- `Engine`: a closed command channel acts like Shutdown; the order between the loop head and the next command is left open, which only adds runs; notifications, logging and the reply channel's ten-second limit are not modelled. The interval the application derives from visibility is a `set_interval` that may happen at any time. Telemetry demand is an opaque number.
- `Tray.TrayShell`: its calls are three protocol steps in a row on one object; interleavings inside a call are covered by the protocol lemmas, which work on values. Posts to a published thread succeed. The popup menu and its theme are left out.
- `Settings`: the order in which the maps are walked is arbitrary rather than ascending, so the theorems hold for every order but do not say which section comes first; the byte-order mark, the size limit, the JSON file of older builds and the path of the file are not modelled.
- `Extraction`: creating the target directory and the contents of a file whose write fails half-way; looking an entry up by name. `embed` and its check of the executable's header are left out.
- `ProcessRules`: what a rule does to a process, toasts and wake-ups, the lock around the result queue, and `apply_batch`, which counts and remembers the first error.
- `CivilDate`: the layouts in which a date is written, time of day and time zones.
- `StartupImpact`: a process that loses its known start time from one snapshot to the next, which the source takes for the same process (`StartupImpact.UnknownStartBridges`), is outside the telescoping law, though not outside `StartupCredits.MeasuredIsCost`; image keys are given, not computed from paths; the classification thresholds are a table.
- `GroupLoad`: the two wrappers that choose which shares of a process are added are represented by the shares themselves.
- `Persist`: the name of the temporary file, permissions and `set_aside`; directory syncing, which the source does not do either.
- `icon_cache`, `logging`, the user interface, the Windows calls, the platform collectors, demand tables, locale data, number grouping and axis rounding are not part of this model.
