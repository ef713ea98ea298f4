# CineLuck recording core in Dafny

This project models the sequential logic at the centre of the CineLuck camera
application and proves properties of that model. It covers four parts:

- **Operating-mode state machine** (`state_machine.dfy`, module `StateMachine`).
  - The five modes and the transition table.
  - `transition_to`, with its optional transition and entry handlers.
  - The error path, with auto-recovery scheduled for up to three consecutive errors.
  - The watchdog.
  - The emergency reset (`force_idle`) and `shutdown`.
- **Safe-stop sequencer** (`safe_stop.dfy`, module `SafeStop`).
  - The busy flag.
  - The ordered worker: drain the encoder, finalize the file, finalize the camera, return to Preview.
  - The synchronous fallback variant used without the UI toolkit.
- **Encoding settings** (`encoder.dfy`, module `Encoder`).
  - The ordered validation chain.
  - The tiered bits-per-pixel bitrate rule, with a configured floor and the H.265 discount.
  - The codec and container descriptions.
- **Recording files** (`file_utils.dfy`, module `FileUtils`).
  - The generated file name `YYYY-MM-DD_HH-MM-SS_2K{fps}_{codec}[_takeNNN][_suffix].{container}`.
  - The take-counter scan over the `.mkv` files of the day's directory.
  - The next file path.
  - The selection of incomplete recordings that cleanup deletes.

Three modules hold shared definitions:

- `Text` (`text.dfy`): ASCII case mapping, decimal formatting and parsing, zero padding, Python's `str.split` on one character, and `rfind`.
- `Wrappers` (`wrappers.dfy`): `Option`.
- `Seqs` (`seqs.dfy`): associativity of sequence concatenation, which the trace-filter lemmas use.

Every operation is a pure function over immutable data. Where the source relies on threads, timers, callbacks or the clock, the model takes an explicit input instead:

- **Handler outcomes.** What a registered handler does is given as `HookResult`.
- **Watchdog timer.** Its firing is the step `WatchdogFires`.
- **Recovery timer.** The firing of a scheduled recovery is the step `RecoveryFires`.
- **Stop worker.** The worker thread's run is the step `RunStopWorker`. What each collaborator call does is given as `StepOutcomes`.
- **Clock.** Readings of the clock are `DateTime` values.
- **Directories.** A directory's contents are a map from entry name to entry, and its iteration order is a sequence.

Notifications (`state_changed`, `error_occurred`, `stop_progress`, `stop_completed`) are appended to an event trace. The calls into handlers and collaborators are recorded in the same trace.

Some behaviour of the code is easy to miss, and the model keeps it:

- **A raising safe-stop step aborts the sequence.** Any exception in the stop worker skips the remaining steps. The worker then reports "Stop failed: ..." and completes with `False` (cineluck/state/machine.py:356-359).
- **The error path announces `(ERROR, ERROR)`.** The mode is assigned before `state_changed` is emitted, so the "old mode" it carries is already ERROR (cineluck/state/machine.py:202-203).
- **A safe stop from RECORDING fails.** RECORDING to PREVIEW is not in the table (cineluck/state/machine.py:85). A safe stop started directly from RECORDING therefore leaves the machine in RECORDING and completes with `False`, although cineluck/app.py:256-260 and 332-335 start it from RECORDING. See "Findings".
- **A forced transition can fail.** `force` only skips the table check. A raising transition or entry handler still makes the transition return `False` (cineluck/state/machine.py:142-176).
- **A raising IDLE entry handler makes recovery endless.** A forced move to IDLE clears the retry count (cineluck/state/machine.py:153-154) before the entry handler runs (lines 163-169). The handler's error is then always counted as the first retry, and another recovery is scheduled every time.
- **The watchdog can still be running in ERROR.** The error path does not cancel it (cineluck/state/machine.py:192-208), so it can fire there. It then does nothing, because ERROR is not supervised (lines 237-244).
- **The first take of a day carries no take number.** `_take{NNN}` is added only from counter 2 on (cineluck/utils/file_utils.py:84), and the rescan in `get_next_filepath` counts only numbered takes (lines 53-63). See "Findings".

## Model

| member | source | states |
|---|---|---|
| StateMachine.EveryModeEscapes | cineluck/state/machine.py:82-88 | No mode is a dead end: every mode reaches IDLE or PREVIEW in at most two ordinary moves, and RECORDING reaches neither directly |
| StateMachine.CanTransitionTo | cineluck/state/machine.py:116-119 | No mode may move to itself. Every mode but ERROR may move to ERROR. Only PREVIEW may start RECORDING, only RECORDING may move to STOPPING, and RECORDING may move nowhere else but ERROR |
| StateMachine.InitValid | cineluck/state/machine.py:90-98 | The machine starts in IDLE with no timer and no retries counted, which satisfies the machine invariant |
| StateMachine.IllegalTransitionRejected | cineluck/state/machine.py:116-140 | A non-forced request for a target outside the current mode's table row returns false with the machine unchanged, no handler called and no notification |
| StateMachine.TransitionTo | cineluck/state/machine.py:121-176 | `transition_to` keeps the handler registry, ends in the target, the old mode or ERROR, and succeeds only in the target |
| StateMachine.TransitionSuccessIff | cineluck/state/machine.py:121-176 | A transition succeeds exactly when it is forced or in the table, and no registered transition or entry handler raises |
| StateMachine.TransitionCommits | cineluck/state/machine.py:142-171 | Without a raising handler, a legal or forced transition commits the target and emits exactly one `state_changed(target, old)` and no error. It resets the retry count unless the target is ERROR, arms the watchdog exactly for PREVIEW/RECORDING, and returns true |
| StateMachine.TransitionHandlerFailure | cineluck/state/machine.py:142-176 | A raising (old, target) handler means the target is never committed. The machine ends in ERROR, with only the error path's notification, "Transition error: ..." reported and the retry counted. It returns false |
| StateMachine.EntryHandlerFailure | cineluck/state/machine.py:148-169 | A raising entry handler comes after the target was committed, announced and the watchdog re-armed. The error path then moves to ERROR, reports "State handler error: ...", counts a retry on top of the cleared count, and schedules a recovery while that count is at most 3. It returns false |
| StateMachine.RegisterStateHandler | cineluck/state/machine.py:178-181 | Registering an entry handler sets that mode's key and leaves every other key and the rest of the machine unchanged |
| StateMachine.RegisterTransitionHandler | cineluck/state/machine.py:183-190 | Registering a transition handler sets the (from, to) key and leaves every other key and the rest of the machine unchanged |
| StateMachine.LastRegistrationWins | cineluck/state/machine.py:188-189 | A second registration for the same pair overwrites the first |
| StateMachine.HandleError | cineluck/state/machine.py:192-208 | The error path emits the message once and counts a retry. It moves to ERROR, announcing `(ERROR, ERROR)` only if not already there. It schedules a recovery exactly when the new count is at most 3, and leaves the watchdog and handlers alone |
| StateMachine.RecoveryScheduledIff | cineluck/state/machine.py:197-208 | A recovery is scheduled if and only if the retry count before the error is below 3 |
| StateMachine.RecoveriesAreBounded | cineluck/state/machine.py:196-208 | k consecutive errors count k retries and leave the machine in ERROR. They schedule min(k, 3 - retries) recoveries |
| StateMachine.RepeatedErrorsAnnounced | cineluck/state/machine.py:192-195 | k consecutive errors are each announced once, in order, with their own message |
| StateMachine.FourthErrorNotRecovered | cineluck/state/machine.py:206-208 | From a clean count, a fourth consecutive error schedules no recovery beyond the three already scheduled |
| StateMachine.RecoveryFires | cineluck/state/machine.py:210-216 | With no recovery scheduled, a firing changes nothing and announces nothing |
| StateMachine.RecoveryResetsToIdle | cineluck/state/machine.py:210-216 | With no handler raising on the way into IDLE, a firing consumes one scheduled recovery. It lands in IDLE with the retry count cleared and no timer, emits exactly `state_changed(IDLE, old)` and no error, and succeeds |
| StateMachine.RecoveryRetriesRaisingIdleEntry | cineluck/state/machine.py:153-169 | If IDLE's entry handler raises, a firing fails. It lands in ERROR with exactly one retry counted and "State handler error: ..." reported, and leaves as many recoveries scheduled as before |
| StateMachine.RaisingIdleEntryRecoversForever | cineluck/state/machine.py:153-169 | With a raising IDLE entry handler, any number of firings leaves the machine in ERROR with one retry counted and the same number of recoveries still scheduled |
| StateMachine.StartWatchdog | cineluck/state/machine.py:218-235 | Any timer is replaced: a running one in PREVIEW/RECORDING, none otherwise; nothing else changes |
| StateMachine.WatchdogFires | cineluck/state/machine.py:237-244 | Only a running timer fires. It raises the mode's "stalled" error, moving to ERROR, only while the mode is PREVIEW or RECORDING |
| StateMachine.ResetWatchdog | cineluck/state/machine.py:246-249 | A reset restarts the timer only when one is referenced, and then it runs exactly in the supervised modes |
| StateMachine.StallAlwaysDetected | cineluck/state/machine.py:218-249 | In every reachable machine a supervised mode has a running watchdog whose firing reports the stall and moves to ERROR. In IDLE and STOPPING a firing is impossible |
| StateMachine.ForceIdle | cineluck/state/machine.py:251-259 | The emergency reset ends in IDLE with no timer and no retries. It emits exactly `state_changed(IDLE, old)` and keeps handlers and scheduled recoveries |
| StateMachine.ForceIdleFromAnywhere | cineluck/state/machine.py:251-271 | From any machine, the reset yields the initial mode, timer and retry count, with one announcement and no handler call |
| StateMachine.Shutdown | cineluck/state/machine.py:267-271 | Shutdown is the emergency reset |
| StateMachine.HandleErrorKeepsValid | cineluck/state/machine.py:192-208 | The error path always produces a machine satisfying the invariant |
| StateMachine.TransitionKeepsValid | cineluck/state/machine.py:121-176 | Transitions preserve the invariant: the watchdog runs in PREVIEW/RECORDING, none runs in IDLE/STOPPING, and retries are counted only in ERROR |
| StateMachine.ApplyKeepsValid | cineluck/state/machine.py:121-271 | Every public operation and timer firing preserves the invariant |
| StateMachine.RunKeepsValid | cineluck/state/machine.py:90-271 | Every sequence of operations from a valid machine keeps the invariant |
| SafeStop.SafeStopRecording | cineluck/state/machine.py:295-316 | A request while a stop is in progress is dropped unchanged; otherwise the flag is set and a worker is started with the given collaborators |
| SafeStop.RunStopWorker | cineluck/state/machine.py:318-362 | The worker clears the busy flag on every exit, and changes the machine only by the transition to PREVIEW |
| SafeStop.WorkerRunsAllSteps | cineluck/state/machine.py:320-354 | With no raising call, progress is the five step messages in order, then "Ready" or "Stop completed with errors". Exactly the present collaborators are called. The run completes once with the result of `transition_to(PREVIEW)` |
| SafeStop.WorkerStepFailureAborts | cineluck/state/machine.py:320-359 | A raising collaborator call skips the rest, with one `stop_completed(False)` and the machine untouched. A raising drain gives the first two step messages, then "Stop failed: " and its message, after only the drain call. A raising finalize gives three messages and its own message, after drain and finalize. Otherwise the camera stop raised, and all four messages and every step call precede its message |
| SafeStop.RequestKeepsConsistent | cineluck/state/machine.py:303-307 | The busy flag is set exactly while a worker is pending, across requests |
| SafeStop.WorkerKeepsConsistent | cineluck/state/machine.py:361-362 | The flag and pending worker stay in step when the worker finishes |
| SafeStop.AtMostOneRun | cineluck/state/machine.py:303-362 | After a request starts a run, a second request is dropped until the run completes, with exactly one completion. Afterwards a request starts again |
| SafeStop.SafeStopSynchronous | cineluck/state/machine.py:404-426 | The fallback drops a request while busy. Otherwise it reports "Stopping recording..." and "Finalizing...", then completes once with the transition's result, leaving the flag clear |
| SafeStop.StopFromStoppingReachesPreview | cineluck/state/machine.py:343-354 | From STOPPING, an uninterrupted stop with quiet handlers lands in PREVIEW with the watchdog running and completes with true after "Ready" |
| SafeStop.StopFromRecordingFails | cineluck/state/machine.py:343-354 | From RECORDING (not allowed to move to PREVIEW, line 85) the stop leaves the machine unchanged and completes with false after "Stop completed with errors" |
| SafeStop.RecordThenStop | cineluck/state/machine.py:318-354 | IDLE, then PREVIEW, RECORDING, STOPPING, then a stop with both collaborators: drain, finalize, camera stop in order, then PREVIEW and true |
| SafeStop.RunStopWorkerViaStopping | cineluck/state/machine.py:343-345 | The corrected worker enters STOPPING first when asked to stop while RECORDING, and is the written worker otherwise |
| SafeStop.StopFromRecordingViaStopping | cineluck/state/machine.py:343-354 | With the correction, a stop from RECORDING lands in PREVIEW and completes with true after "Ready" |
| Encoder.TruncDiv | cineluck/camera/encoder.py:107 | `int()` of an exact quotient truncates toward zero |
| Encoder.BppHundredths | cineluck/camera/encoder.py:99-105 | Bits per pixel is 0.15 exactly from 50 fps on, 0.2 exactly from 30 to below 50 fps, and 0.25 exactly below 30 fps |
| Encoder.BppNonIncreasing | cineluck/camera/encoder.py:99-105 | A higher frame rate never gets a higher bits-per-pixel tier |
| Encoder.GetEncodingParameters | cineluck/camera/encoder.py:80-116 | Codec and container are lower-cased, while fps, resolution and the hardware flag pass through. Apart from H.265, the bitrate is the larger of the configured default and the computed pixel rate |
| Encoder.H265Discount | cineluck/camera/encoder.py:112-114 | For identical inputs the H.265 bitrate is the truncated 70% of the H.264 bitrate, never larger when that is non-negative |
| Encoder.ParametersIgnoreCase | cineluck/camera/encoder.py:86-88 | Parameters depend on codec and container only through their lower-case forms |
| Encoder.ValidateEncodingSettings | cineluck/camera/encoder.py:299-339 | Settings are valid exactly when the order-free `Acceptable` holds, and only then is the message "Settings are valid". The codec check comes first and the container check next |
| Encoder.ResolutionChecks | cineluck/camera/encoder.py:317-323 | Past codec and container, a width below 640 or height below 480 is "too small". Otherwise one above 4096 or 2160 is "too large". The bounds are accepted |
| Encoder.FrameRateChecks | cineluck/camera/encoder.py:325-337 | Past the earlier checks, an fps outside the configured list is "Unsupported frame rate: fps". Otherwise the SSD message appears exactly at fps ≥ 50 with a derived bitrate above 50,000,000 |
| Encoder.CapSeparatesCodecsAtUhd50 | cineluck/camera/encoder.py:330-339 | At 4096x2160 and 50 fps with default configuration, H.264 is refused for SSD and H.265 is accepted |
| Encoder.CapSeparatesCodecs | cineluck/camera/encoder.py:330-339 | For any settings passing the other checks at 50 fps or more, an H.264 bitrate above 50,000,000 and at most 71,428,572 is refused for SSD, while H.265 with the same inputs is accepted |
| Encoder.GetCodecInfo | cineluck/camera/encoder.py:250-273 | The name is upper-cased and the hardware flag is passed through. Only h264/h265 get a profile and list both containers; other codecs list none |
| Encoder.GetContainerInfo | cineluck/camera/encoder.py:275-297 | mkv is crash-safe and not streaming, mp4 the reverse, both list both codecs; an unknown container has no traits and no codecs |
| Encoder.CompatibilityAgrees | cineluck/camera/encoder.py:250-315 | A codec lists a container exactly when the container lists the codec, exactly when both pass the validator's first two checks |
| Text.Split | cineluck/utils/file_utils.py:53 | `split('_')` always yields at least one part, and no part contains the separator |
| Text.JoinSplit | cineluck/utils/file_utils.py:53 | Joining the parts of a split restores the string |
| Text.PaddedDigitsValue | cineluck/utils/file_utils.py:84 | Zero padding with `03d` keeps the number the digits denote |
| FileUtils.NewFileUtils | cineluck/utils/file_utils.py:17-21 | A new manager has no dated directory and take counter 1 |
| FileUtils.TakeOf | cineluck/utils/file_utils.py:57-58 | A token denotes a take only if it is longer than "take"; such a token holds no '_' and no '.', so it is a whole field of a stem |
| FileUtils.TakeOfDigits | cineluck/utils/file_utils.py:57-59 | "take" followed by any non-empty run of digits, leading zeros included, denotes the number the digits spell |
| FileUtils.StemAndSuffix | cineluck/utils/file_utils.py:52 | The pathlib stem and suffix split a name without loss, and a suffix is '.' followed by no further '.' |
| FileUtils.SidecarSuffix | cineluck/utils/file_utils.py:172 | The sidecar of a name with a suffix has suffix ".json", so it is never a video |
| FileUtils.TakePartReadsBack | cineluck/utils/file_utils.py:84 | The take part is empty up to counter 1. From 2 on it is "_" and a separator-free token of at least 7 characters, which parses back as the counter |
| FileUtils.GenerateFilename | cineluck/utils/file_utils.py:70-94 | Each call advances the take counter by exactly one and nothing else. The name starts with date_time_2K{fps}_ and ends with "." + container |
| FileUtils.FilenameFields | cineluck/utils/file_utils.py:79-89 | Fields 0, 1 and 2 of the generated stem split on '_' are the date, the "HH-MM-SS" time (what cineluck/ui/widgets/bottom_bar.py:275 reads as the start time) and "2K{fps}" |
| FileUtils.GeneratedNameFields | cineluck/utils/file_utils.py:79-89 | A generated name is "." + container after a base whose '_'-separated fields are the date, the time, "2K{fps}", the codec's fields, the take token only from take 2 on, and the custom suffix's fields only when it is non-empty |
| FileUtils.MaxTake | cineluck/utils/file_utils.py:56-59 | The result bounds every take token's number and equals one of them, or is 0 |
| FileUtils.ScanTakeCounter | cineluck/utils/file_utils.py:46-63 | The scan yields a counter above every take of every `*.mkv` entry whose stem has at least two fields, and one above some take unless it is 1 |
| FileUtils.NextTakeUnique | cineluck/utils/file_utils.py:47-63 | That description of the counter determines it uniquely |
| FileUtils.RefreshTakeCounter | cineluck/utils/file_utils.py:41-68 | Without a dated directory nothing changes; otherwise only the counter changes, to the scan's result |
| FileUtils.GeneratedTakeParsesBack | cineluck/utils/file_utils.py:84-89 | An `.mkv` name generated with counter n > 1 is globbed and scans back to at least n. It scans back to exactly n when codec and custom suffix hold no take token |
| FileUtils.RescanExceedsWrittenTake | cineluck/utils/file_utils.py:49-63 | After such a file is written, a rescan gives a counter above its take |
| FileUtils.GetNextFilepath | cineluck/utils/file_utils.py:96-104 | The path is base/date/name, where the directory is chosen first and its take counter rescanned. For `.mkv` from the second take on, the new name is not yet in the directory |
| FileUtils.UntaggedGeneratedTake | cineluck/utils/file_utils.py:84-89 | An `.mkv` name generated at counter 1 or below, with no take token in codec or suffix, is globbed and scans as take 0 |
| FileUtils.UntaggedTakeKeepsCounterAtOne | cineluck/utils/file_utils.py:53-89 | Once the first take's file is in a directory that scanned to 1, a rescan still yields 1, and the name generated from it in the same second is the name of that file |
| FileUtils.ScanCountedTakes | cineluck/utils/file_utils.py:46-63 | The corrected scan yields a counter above the counted take of every `*.mkv` entry, where a name of two or more fields without a take token counts as take 1 |
| FileUtils.GeneratedCountedTake | cineluck/utils/file_utils.py:84-89 | Every generated `.mkv` name counts as at least take 1 and at least the counter it was named from |
| FileUtils.RescanCountedExceedsWrittenTake | cineluck/utils/file_utils.py:49-63 | With the corrected scan, a rescan after any generated file is written gives a counter of at least 2 and above that file's counter |
| FileUtils.CountedFirstTakeTagsSecond | cineluck/utils/file_utils.py:84 | With the corrected scan, once the first take's file is written the counter becomes 2, so the next name carries the take token for 2 |
| FileUtils.GetNextFilepathCounted | cineluck/utils/file_utils.py:96-104 | With the corrected scan, the path keeps the shape base/date/name, and an `.mkv` name is never already in the directory, the first take included |
| FileUtils.CleanupFrom | cineluck/utils/file_utils.py:164-174 | The loop only removes entries and never alters a remaining one |
| FileUtils.CleanupIncompleteFiles | cineluck/utils/file_utils.py:158-176 | Nothing happens without a dated directory or when it does not exist |
| FileUtils.CleanupRemovesExactly | cineluck/utils/file_utils.py:164-174 | When every incomplete recording is visited and none has a directory as sidecar, the run finishes. It leaves exactly the entries that are neither a `.mkv`/`.mp4` file under 1024 bytes nor such a file's same-stem `.json` |
| FileUtils.BlockedCleanupStops | cineluck/utils/file_utils.py:172-176 | If some incomplete recording's sidecar is a directory, the unlink raises and the run does not finish |
| FileUtils.CleanupFinishesIff | cineluck/utils/file_utils.py:163-176 | The run finishes if and only if no incomplete recording has a directory for a sidecar |
| FileUtils.CompleteVideosSurvive | cineluck/utils/file_utils.py:165-167 | A `.mkv`/`.mp4` file of at least 1024 bytes survives unchanged |
| FileUtils.CleanupIdempotent | cineluck/utils/file_utils.py:158-176 | Cleaning what a finished cleanup left changes nothing |

## Left out

- **Threads, locks and their races.** These are the watchdog and recovery `threading.Timer`s, the stop worker thread and the `RLock`. Each firing and the worker's run are explicit sequential steps, so interleavings of a timer with a concurrent transition are not modelled.
- **Qt signals and subscriber isolation.** Signals and the loops that isolate subscriber exceptions become appended trace events. The fallback variant's callback lists are not modelled.
- **Sleeps and logging.** The `time.sleep` pauses and all logging have no effect on the model.
- **`get_state_duration`.** It is a stub that always returns 0.0.
- **`is_stopping`, `current_state`, `is_state`.** These are plain reads of fields the model exposes directly.
- **The stop worker's guard against exceptions from `transition_to`.** No such exception can arise in the model.
- **Collaborator internals.** The drain, finalize and camera-stop calls are not modelled beyond their outcomes. Their implementation (cineluck/camera/encoder.py and cineluck/camera/manager.py) is not part of this model.
- **Hardware encoder probe.** `_check_hardware_encoder` is a subprocess probe, so its result is the `hardwareEncoderAvailable` input.
- **Encoding and monitor machinery.** Starting and stopping encoding, the monitor thread and `estimate_file_size` are I/O or floating-point code.
- Encoder.GetEncodingParameters: computes the bitrate in exact rational arithmetic, as w·h·fps·bpp/100 truncated toward zero, and the H.265 discount as ·7/10 truncated. The source multiplies by the binary floats 0.15, 0.2, 0.25 and 0.7. Their rounding can put `int()` one below the exact value when the exact product is an integer, and products beyond 2^53 lose precision.
- **Encoder: `frame_rates` entry set to a non-list.** The source would then raise; the model only distinguishes an absent entry from a list.
- Text.Lower: ASCII only, like Text.Upper. They map only A–Z and a–z. Python's `str.lower`/`str.upper` also map other letters, such as the Kelvin sign and the German sharp s.
- FileUtils.ScanTakeCounter: ASCII digits only, through FileUtils.TakeOf. It accepts only ASCII digits. Python's `str.isdigit` also accepts other Unicode digits, and for some of those `int()` raises. The source then skips the rest of that file.
- **Exception fallback of `_update_take_counter`.** It resets the counter to 1 when listing the directory raises, and is not modelled.
- **Entries a glob could match but the model does not.** `glob("*.mkv")` is modelled as "name ends in `.mkv`" on the one directory. pathlib's treatment of hidden names and case is taken to be the POSIX one.
- FileUtils.GenerateFilename: pads the year on every platform, through FileUtils.DateString. `%Y` is modelled as four zero-padded digits. Some C libraries print years below 1000 without padding.
- StateMachine.RecoveriesAreBounded: bounds recoveries only across back-to-back errors. A raising IDLE entry handler clears the count before each of its errors, so recovery then never stops (StateMachine.RaisingIdleEntryRecoversForever).
- FileUtils.GetNextFilepath: promises a fresh `.mkv` name only from take 2 on. As written, the scan ignores the untagged first take; see "Findings" and FileUtils.GetNextFilepathCounted.
- FileUtils.RescanExceedsWrittenTake: holds only for files named from counter 2 on, for the same reason. FileUtils.RescanCountedExceedsWrittenTake drops that condition for the corrected scan.
- **File I/O.** `ensure_recording_directory`'s `mkdir` and its failure are not modelled; the chosen directory is the path component. Nor are `unlink` failures other than the directory-sidecar case, or the listing going stale during the loop.
- **File-system helpers.** `create_sidecar_metadata`, `get_free_space_gb`, `check_storage_requirements`, `get_recent_recordings` and `estimate_recording_bitrate` are file, clock or floating-point I/O.
- **Path normalisation.** A path is its sequence of components, and pathlib's normalisation of the base directory is not modelled.

## Findings

| source | as written | input that shows it | evidently intended | confidence | as-written member | corrected member |
|---|---|---|---|---|---|---|
| cineluck/state/machine.py:343-345 | The stop worker asks for RECORDING→PREVIEW, which the table (line 85) refuses. No code in cineluck/app.py, cineluck/ui/ or cineluck/camera/ enters STOPPING. Yet cineluck/app.py:256-260 and 332-335 call `safe_stop_recording` while RECORDING | A safe stop requested in RECORDING with every step succeeding and no handlers: it ends in RECORDING with "Stop completed with errors" and `stop_completed(False)` | Pass through STOPPING, the table's route from RECORDING back to PREVIEW. The stop then ends in PREVIEW with `True`, as the sequence's own docstring ("Return to Preview") says | high (not executed) | SafeStop.StopFromRecordingFails | SafeStop.StopFromRecordingViaStopping |
| cineluck/utils/file_utils.py:84 | The take token is added only from counter 2 on, while the rescan that `get_next_filepath` triggers (lines 34, 53-63) counts only files that carry one. The first file of a day never moves the counter, so every call through `get_next_filepath` uses counter 1 | Two recordings started through `get_next_filepath` in the same second, in an empty day directory, with codec "h264" and no suffix: the second path names the file the first one wrote | Count a dated recording without a take token as take 1, so the second recording gets "_take002" and a generated `.mkv` name is never already in the directory | medium (not executed) | FileUtils.UntaggedTakeKeepsCounterAtOne | FileUtils.GetNextFilepathCounted |
