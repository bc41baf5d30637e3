# VocalizeAI recorder and forms, in Dafny

This project models the background recording session of the VocalizeAI app
and the validators of its sign-up and password screens.

**The recording session** keeps three copies of the same state:

- the Android foreground service (`ForegroundAudioRecorderService`, the
  *engine*), which holds the authoritative flags and the elapsed-time timer;
- the native module (`AudioRecorderModule`, the *bridge*), which caches the
  engine's broadcasts, guards the JavaScript commands and turns broadcasts
  into JavaScript events;
- the JavaScript service (`AudioRecorderService` in
  `utils/BackgroundAudioRecorder.js`, the *observer*), with its own guards
  and listener registries.

Each copy is a datatype with pure transition functions. Broadcasts, events
and listener calls are values appended to an output sequence. The module
`Sync` wires the three copies together and proves things about the whole:

- The bridge's flags agree with the engine's after every run of engine steps
  (`Sync.RunKeepsAgreement`). The engine here is the program as written,
  including its start-while-recording defect (see "## Findings").
- A recording command issued from JavaScript, once the engine has acted on
  it and the bridge's events have reached the observer, leaves all three
  agreeing again (`Sync.CommandKeepsSessionAgreeing`).
- `onHostResume` reconciles the bridge with the engine, however far they had
  drifted apart.
- A stop with a successful copy reaches every completion listener three
  times, unless a listener throws.
- These results assume every event the bridge emits reaches JavaScript, which
  holds while a React instance is active (see "## Left out").

**The screens** are pure functions from the screen's fields to the error
strings and flags they set:

- participant registration (name, age, modal gate, payload);
- password change;
- the checks `register` makes before calling the server;
- the token expiry and the refresher in `authService`;
- user sign-up.

**Modules, one per file:**

| File | Module | Contents |
|---|---|---|
| common.dfy | `Common` | `Option`, the file system as a map from path to size, the `file://` normalisation, JavaScript white space, `trim()` and UTF-16 `length` |
| numerals.dfy | `Numerals` | decimal rendering, JavaScript `parseInt`, and Kotlin's truncating `/` and `%` |
| engine.dfy | `Engine` | the engine |
| bridge.dfy | `Bridge` | the bridge |
| observer.dfy | `Observer` | the observer |
| sync.dfy | `Sync` | the composition |
| audio_validation.dfy | `AudioValidation` | the validation |
| participant_form.dfy | `ParticipantForm` | participant registration |
| password_change.dfy | `PasswordChange` | password change |
| auth_service.dfy | `AuthService` | `authService` |
| signup_form.dfy | `SignupForm` | user sign-up |

Platform decisions are parameters, never guesses:

- **Engine:** the wall clock, whether the media recorder starts, whether
  copying the finished file succeeds, and the files directory. These come in
  through `Engine.Env`.
- **Bridge:** the microphone permission, the exceptions thrown when
  starting the service, and those thrown by `stopService` and by the
  notification cancel in `forceStopService`.
- **Observer:** whether the native module exists, how its promises settle,
  and which listeners throw.
- **Validation:** whether the audio loads.
- **`updateToken`:** the server's reply to a refresh.
- **`tokenUpdateRoutine`:** the interval handle the runtime returns.
- **Sign-up:** `validarEmail`, which is defined outside the files modelled
  here.

## Behaviour worth knowing

- **Three completion broadcasts.** A successful stop sends
  `RECORDING_COMPLETED` three times (ForegroundAudioRecorderService.kt:414-426).
  The bridge turns each one into an `onRecordingComplete` event, so every
  completion listener on the JavaScript side is called three times per
  recording when none of them throws and a React instance is active
  (`Sync.StopNotifiesCompletionThrice`). When the copy fails, the broadcast
  is sent once.
- **The session state is two flags, a file and a time.** Each of the three
  copies holds `isRecording`, `isPaused`, an output file and an elapsed time;
  a finished or failed recording is simply idle again.
- **Raw paths from `getStatus` and `syncStatus`.** Both hand out the cached
  path without `file://`; only the broadcast handlers add the scheme.
- **Conditional re-sends.** The bridge re-sends a status snapshot after
  100 ms and 300 ms only when a flag changed.
- **`forceStopService` leaves the bridge's cache alone.** It emits the reset
  snapshot but does not touch the cache, which only the engine's broadcasts
  bring down.
- **The debounce can desynchronise the bridge.** The bridge commits a pause
  or resume to its own flags before the engine's 300 ms debounce can drop the
  action. The bridge and the engine can then disagree until the next
  broadcast or `onHostResume` (`Sync.DebounceDesync`,
  `Sync.HostResumeReconciles`).
- **A start while paused desynchronises the bridge too.** Neither the bridge
  nor the observer guards `startRecording` on the current state. The bridge
  sets itself recording and unpaused, while the engine does not restart a
  recording in progress and stays paused (`Sync.StartWhilePausedDesync`).
- **A throwing listener stops the others.** The status and completion
  listeners are called in a `forEach` with no `try`, so the first that throws
  ends the loop. Only the time listeners are each called inside a `try`.
  `resetState` catches such an exception and returns `false`, after it has
  already reset its fields.
- **`forceStopService` does not wait for its reset.** It calls `resetState`
  without `await` and reports success as soon as its own native call
  resolves, before the reset has run.
- **A destroyed service forgets its debounce.** `onDestroy` ends the
  service; the next intent finds a new one whose `lastActionTimestamp` is 0,
  so a start 200 ms after a stop that destroyed the service is accepted
  (`Engine.StartAfterDestroyAccepted`).
- **`parseInt` accepts trailing text.** `parseInt` reads only the leading
  digits, so the age "12 anos" is accepted.
- **The "Não sei informar" branch is dead.** The participant form's select
  sends "0" for that option, never the label itself, so the payload's special
  case for the label never fires. Its result, 0, agrees with what `parseInt`
  gives for "0".

## Model

| member | source | states |
|---|---|---|
| Common.ToFileUri | utils/ValidateAudioFile.js:4 | the normalised URI always carries the `file://` scheme, ends with the original text, and is the input itself when the input already has the scheme |
| Common.StripFileScheme | utils/ValidateAudioFile.js:4-7 | the path a URI designates is a suffix of it, and the scheme plus the path gives back a `file://` URI |
| Common.ToFileUriIdempotent | utils/BackgroundAudioRecorder.js:419-427 | adding the scheme only when it is absent is idempotent |
| Common.StripToFileUri | utils/ValidateAudioFile.js:4-7 | for a plain path, prefixing then stripping the scheme gives back the path, so the URI designates the file it was made from |
| Common.SameUriSamePath | utils/ValidateAudioFile.js:4-7 | a path and its normalised URI designate the same file once normalised again |
| Common.TrimStart | app/auth/cadastro.tsx:49 | the leading part of `trim()`: the result is a suffix, starts with no white space, and everything dropped is white space |
| Common.TrimEnd | app/auth/cadastro.tsx:49 | the trailing part of `trim()`: the result is a prefix, ends with no white space, and everything dropped is white space |
| Common.Trim | app/auth/cadastro.tsx:49 | `trim()` never lengthens and leaves no white space at either end |
| Common.TrimEmptyIffBlank | app/auth/cadastro-participante.tsx:40-44 | `!value.trim()` holds exactly when every character is white space |
| Common.Utf16Length | app/auth/trocar-senha.tsx:31 | JavaScript `length` counts one or two code units per character and is zero only for the empty string |
| Numerals.NatToString | services/authService.ts:15-18 | the rendering of a number is a non-empty digit string without leading zeros |
| Numerals.IntToString | services/authService.ts:15-18 | `toString()` of an integer is its digits, preceded by `-` when negative |
| Numerals.NatToStringRoundTrip | services/authService.ts:15-18 | reading the rendered digits gives back the number |
| Numerals.NatToStringInjective | services/authService.ts:15-18 | different numbers render differently |
| Numerals.DigitPrefix | app/auth/cadastro-participante.tsx:62 | the digits `parseInt` reads form the longest digit prefix, stopping at the first non-digit |
| Numerals.ParseIntNatToString | app/auth/cadastro-participante.tsx:62-63 | `parseInt` reads every rendered natural number back |
| Numerals.DigitPrefixOfDigits | app/auth/cadastro-participante.tsx:62 | the digit run of digits followed by a non-digit is exactly those digits |
| Numerals.ParseIntStopsAtNonDigit | app/auth/cadastro-participante.tsx:62-63 | `parseInt` of digits not starting with `0` (so no `0x` prefix can form), followed by anything that does not start with a digit, is the digits' value |
| Numerals.TruncDiv | android/app/src/main/java/com/thiagolins/vocalizeai/ForegroundAudioRecorderService.kt:503-505 | `Long` division truncates toward zero: the quotient is the largest multiple that fits, on the side of zero |
| Numerals.TruncRem | android/app/src/main/java/com/thiagolins/vocalizeai/ForegroundAudioRecorderService.kt:544-548 | `Long` remainder takes the sign of the dividend and completes the truncating quotient |
| Numerals.TruncDivMonotone | android/app/src/main/java/com/thiagolins/vocalizeai/ForegroundAudioRecorderService.kt:503-505 | truncating division by a positive divisor is monotone |
| Engine.RecordingPath | android/app/src/main/java/com/thiagolins/vocalizeai/ForegroundAudioRecorderService.kt:196-198 | a start always names a non-empty output path |
| Engine.ResetRecordingState | android/app/src/main/java/com/thiagolins/vocalizeai/ForegroundAudioRecorderService.kt:476-489 | both flags down, every time zero, output set to the argument, timer and debounce untouched, and a single status broadcast of exactly that state |
| Engine.ClearState | android/app/src/main/java/com/thiagolins/vocalizeai/ForegroundAudioRecorderService.kt:530-542 | the same reset with a null output, keeping the recording start instant, and one status broadcast of the new state |
| Engine.ClearIsResetToNull | android/app/src/main/java/com/thiagolins/vocalizeai/ForegroundAudioRecorderService.kt:476-489 | `clearState` equals `resetRecordingState(null)` apart from the start instant, in the state and in the broadcast |
| Engine.StartRecording | android/app/src/main/java/com/thiagolins/vocalizeai/ForegroundAudioRecorderService.kt:179-286 | a start while recording changes nothing; a successful start records unpaused under a fresh path, with the time taken from `elapsedTimeBeforePause`, the timer running, the output announced, then the status three times; a failed start drops the output and is not recording |
| Engine.PauseRecording | android/app/src/main/java/com/thiagolins/vocalizeai/ForegroundAudioRecorderService.kt:288-320 | applied only while recording and unpaused, otherwise nothing changes; it stops the timer, freezes the elapsed time into `elapsedTimeBeforePause`, and announces the new status three times |
| Engine.ResumeRecording | android/app/src/main/java/com/thiagolins/vocalizeai/ForegroundAudioRecorderService.kt:322-351 | applied only while recording and paused, otherwise nothing changes; only `isPaused` and the timer change, and the new status is announced three times |
| Engine.StopRecording | android/app/src/main/java/com/thiagolins/vocalizeai/ForegroundAudioRecorderService.kt:353-461 | not recording: nothing changes and the result is null; otherwise both flags drop, times reset and the last broadcast is the final status; the result is non-null exactly when the file had content and names a file with content; every completion names a file with content and the recording's duration; an empty file is deleted with no completion |
| Engine.Tick | android/app/src/main/java/com/thiagolins/vocalizeai/ForegroundAudioRecorderService.kt:491-528 | no timer, no firing; otherwise only the elapsed time changes and one time update with it is broadcast; from the timer's start on, the new time is exactly `elapsedTimeBeforePause + (now - start) / 1000`, never less than the frozen time |
| Engine.TickNonDecreasing | android/app/src/main/java/com/thiagolins/vocalizeai/ForegroundAudioRecorderService.kt:503-505 | within one run of the timer a later firing never reports less time |
| Engine.PauseResumeKeepsTime | android/app/src/main/java/com/thiagolins/vocalizeai/ForegroundAudioRecorderService.kt:298 | a paused service does not tick, and after a resume no firing reports less than the time shown at the pause |
| Engine.OnStartCommandAsWritten | android/app/src/main/java/com/thiagolins/vocalizeai/ForegroundAudioRecorderService.kt:103-118 | the code as written: an action within 300 ms of the last accepted one leaves everything unchanged, and a start stores the intent's elapsed time before the guard |
| Engine.OnStartCommand | android/app/src/main/java/com/thiagolins/vocalizeai/ForegroundAudioRecorderService.kt:103-138 | the corrected dispatch of the start-while-recording finding, which `Engine.Apply` does not use: the debounce drops actions within 300 ms and changes nothing; an accepted action stamps the clock; a start while recording changes nothing else; pause and resume leave the files alone |
| Engine.Dispatch | android/app/src/main/java/com/thiagolins/vocalizeai/ForegroundAudioRecorderService.kt:115-138 | an intent with no action or an unknown one changes nothing |
| Engine.OnDestroy | android/app/src/main/java/com/thiagolins/vocalizeai/ForegroundAudioRecorderService.kt:626-643 | after destruction the service is idle with no output and zero times, and the last broadcast says so |
| Engine.DestroyedStartsFresh | android/app/src/main/java/com/thiagolins/vocalizeai/ForegroundAudioRecorderService.kt:24-33 | after `onDestroy` the next intent meets a new service with the declared initial fields, debounce clock at 0; the broadcasts and files are those of `onDestroy` |
| Engine.StartAfterDestroyAccepted | android/app/src/main/java/com/thiagolins/vocalizeai/ForegroundAudioRecorderService.kt:103-110 | a stop accepted at 1000 ms, then the service destroyed: a start at 1200 ms is accepted and records |
| Engine.StartDispatchesDifferOnlyInBase | android/app/src/main/java/com/thiagolins/vocalizeai/ForegroundAudioRecorderService.kt:115-118 | the dispatch as written and the corrected one broadcast the same, touch the files the same, and leave the same service except the timer base, which differs only for a start while recording and then holds the intent's value |
| Engine.RequestStatus | android/app/src/main/java/com/thiagolins/vocalizeai/ForegroundAudioRecorderService.kt:54-61 | a status request changes nothing and broadcasts the current flags, file and time |
| Engine.RequestOutputFile | android/app/src/main/java/com/thiagolins/vocalizeai/ForegroundAudioRecorderService.kt:50-53 | an output-file request changes nothing and broadcasts the current output |
| Engine.InitialValid | android/app/src/main/java/com/thiagolins/vocalizeai/ForegroundAudioRecorderService.kt:24-33 | the initial service is well formed |
| Engine.ApplyPreservesValid | android/app/src/main/java/com/thiagolins/vocalizeai/ForegroundAudioRecorderService.kt:103-138 | every entry point of the program as written, `onDestroy` included, keeps the service well formed: paused only while recording, a named output while recording, the timer running exactly while recording unpaused |
| Engine.StartWhileRecordingShiftsTimer | android/app/src/main/java/com/thiagolins/vocalizeai/ForegroundAudioRecorderService.kt:115-118 | a start intent while recording moves the running timer's base as written (111 s reported instead of 11 s) and does not in the corrected dispatch |
| Engine.FormatTime | android/app/src/main/java/com/thiagolins/vocalizeai/ForegroundAudioRecorderService.kt:544-548 | the clock text has at least five characters with the colon before the two second digits |
| Engine.Pad2OfSmall | android/app/src/main/java/com/thiagolins/vocalizeai/ForegroundAudioRecorderService.kt:547 | `%02d` of a value below 100 is two digits that read back to the value |
| Engine.FormatTimeRoundTrip | android/app/src/main/java/com/thiagolins/vocalizeai/ForegroundAudioRecorderService.kt:544-548 | the `mm:ss` clock reads back to the seconds it was made from |
| Bridge.Url | android/app/src/main/java/com/thiagolins/vocalizeai/AudioRecorderModule.java:76-77 | the handlers' unconditional prefix yields a `file://` URI designating the path |
| Bridge.UrlOf | android/app/src/main/java/com/thiagolins/vocalizeai/AudioRecorderModule.java:76-77 | a null file stays null and a present one stays present |
| Bridge.StatusBurst | android/app/src/main/java/com/thiagolins/vocalizeai/AudioRecorderModule.java:80-93 | one snapshot emitted at once, and again after 100 and 300 ms only when a flag changed, every copy identical |
| Bridge.OnStatus | android/app/src/main/java/com/thiagolins/vocalizeai/AudioRecorderModule.java:57-94 | a status broadcast overwrites the flags and time, replaces the file only with a non-null value, and emits the new snapshot, more than once exactly when a flag changed |
| Bridge.OnCompleted | android/app/src/main/java/com/thiagolins/vocalizeai/AudioRecorderModule.java:113-158 | a completion drops both flags; a named file with content is announced as complete and as the new snapshot; otherwise one error event and nothing complete |
| Bridge.Receive | android/app/src/main/java/com/thiagolins/vocalizeai/AudioRecorderModule.java:40-177 | a null output-file broadcast is ignored, and a named one is cached and emitted as the new snapshot; a status broadcast is handled as `OnStatus` and a completion as `OnCompleted`; a time update moves the time, replaces the file only with a truthy one, and emits one event; an error drops the flags and emits the error then the snapshot |
| Bridge.ReceiveIdempotent | android/app/src/main/java/com/thiagolins/vocalizeai/AudioRecorderModule.java:57-94 | receiving a broadcast twice leaves the cache as once, and a repeated status broadcast is emitted once with no re-sends |
| Bridge.StartRecording | android/app/src/main/java/com/thiagolins/vocalizeai/AudioRecorderModule.java:264-294 | rejected with `PERMISSION_DENIED` and nothing changed without permission; on success the cache is recording and unpaused and the start intent carries the elapsed time |
| Bridge.PauseRecording | android/app/src/main/java/com/thiagolins/vocalizeai/AudioRecorderModule.java:296-317 | `INVALID_STATE` unless recording and unpaused; resolves exactly when that guard holds and the intent goes out, and then only `isPaused` becomes true |
| Bridge.ResumeRecording | android/app/src/main/java/com/thiagolins/vocalizeai/AudioRecorderModule.java:319-340 | `INVALID_STATE` unless recording and paused; resolves exactly when that guard holds and the intent goes out, and then only `isPaused` becomes false; a rejection changes nothing |
| Bridge.StopRecording | android/app/src/main/java/com/thiagolins/vocalizeai/AudioRecorderModule.java:342-361 | never changes the cache; `INVALID_STATE` when not recording; resolves exactly when recording and the stop intent goes out |
| Bridge.ForceStopService | android/app/src/main/java/com/thiagolins/vocalizeai/AudioRecorderModule.java:241-262 | the cache is left alone; the service is destroyed unless `stopService` threw; it resolves exactly when neither `stopService` nor the notification cancel threw, and then emits the reset snapshot (idle, time 0, no file); otherwise it rejects with `FORCE_STOP_ERROR` and emits nothing |
| Bridge.GetStatus | android/app/src/main/java/com/thiagolins/vocalizeai/AudioRecorderModule.java:363-377 | the status is the cache as it is, with the raw path |
| Bridge.OnHostResume | android/app/src/main/java/com/thiagolins/vocalizeai/AudioRecorderModule.java:385-424 | the cached snapshot is pushed, then the engine is asked for its status |
| Bridge.GetOutputFilePath | android/app/src/main/java/com/thiagolins/vocalizeai/AudioRecorderModule.java:439-462 | non-null exactly when the cached file exists with content; the result has the scheme, is stable under normalisation, and designates the cached path |
| Observer.Reach | utils/BackgroundAudioRecorder.js:213-220 | a `forEach` with no `try` reaches every listener when none throws, and otherwise exactly those up to and including the first that throws |
| Observer.NotifyEach | utils/BackgroundAudioRecorder.js:230-236 | with each call inside its own `try`, every listener is called once, in registration order |
| Observer.NotifyAll | utils/BackgroundAudioRecorder.js:213-220 | the listeners are called in registration order with the same notice, as many as `Reach` says: all of them, or up to and including the first that throws |
| Observer.OnStatusChange | utils/BackgroundAudioRecorder.js:207-221 | the four fields take the snapshot's values, nothing else changes, and the status listeners hear them up to the first that throws |
| Observer.StatusChangeIdempotent | utils/BackgroundAudioRecorder.js:207-211 | delivering the same snapshot twice leaves the state of one delivery and notifies the same way |
| Observer.OnTimeUpdate | utils/BackgroundAudioRecorder.js:223-237 | only the time and possibly the file change; every time listener hears the time, each call guarded by its own `try` |
| Observer.TimeUpdateReplacesWhenTruthy | utils/BackgroundAudioRecorder.js:223-228 | the file is replaced exactly when the update carries a truthy file |
| Observer.OnComplete | utils/BackgroundAudioRecorder.js:239-249 | the flags drop, file and time stay, and the completion listeners hear the file and duration up to the first that throws |
| Observer.OnError | utils/BackgroundAudioRecorder.js:161-176 | the flags drop, and the status listeners, up to the first that throws, hear an idle reset with time 0, no file and the error's message or the default one |
| Observer.Deliver | utils/BackgroundAudioRecorder.js:207-249 | no event changes the listener registries |
| Observer.StartRecording | utils/BackgroundAudioRecorder.js:331-349 | succeeds exactly on Android with the native module and a resolved call, and only then sets the flags; a throw changes nothing |
| Observer.PauseRecording | utils/BackgroundAudioRecorder.js:351-368 | throws unless recording and unpaused; `_isPaused` is set only after the native call resolves; a throw changes nothing |
| Observer.ResumeRecording | utils/BackgroundAudioRecorder.js:370-387 | throws unless recording and paused; `_isPaused` clears only after the native call resolves; a throw changes nothing |
| Observer.StopRecording | utils/BackgroundAudioRecorder.js:389-405 | throws when not recording; never changes the state |
| Observer.ResetState | utils/BackgroundAudioRecorder.js:103-131 | once the force stop resolves the state is idle with time 0 and no file and the status listeners hear that, up to the first that throws; it returns true exactly when the stop resolved and no status listener threw; otherwise nothing changes |
| Observer.ResetMatchesResetSnapshot | utils/BackgroundAudioRecorder.js:103-131 | the reset `resetState` applies, and what its listeners hear, are those of delivering the bridge's reset snapshot |
| Observer.ForceStopService | utils/BackgroundAudioRecorder.js:178-191 | without the native module it throws; a rejected stop rethrows its message; once the stop resolves it reports success with the state untouched and a reset pending, because `resetState()` is not awaited |
| Observer.SyncStatus | utils/BackgroundAudioRecorder.js:193-205 | a sync overwrites the same four fields a status event does, telling no listener |
| Observer.GetOutputFilePath | utils/BackgroundAudioRecorder.js:419-427 | null exactly without a truthy file; otherwise a normalised `file://` URI, the file itself when it already had the scheme |
| Observer.GetOutputFilePathStable | utils/BackgroundAudioRecorder.js:419-427 | storing the handed-out path and asking again gives the same path |
| Observer.Without | utils/BackgroundAudioRecorder.js:436-441 | the filter keeps exactly the listeners other than the removed one |
| Observer.WithoutAppend | utils/BackgroundAudioRecorder.js:436-441 | the filter distributes over concatenation, so the remaining listeners keep their order |
| Observer.WithoutAbsent | utils/BackgroundAudioRecorder.js:436-441 | removing an unregistered listener changes nothing |
| Observer.AddListener | utils/BackgroundAudioRecorder.js:429-448 | registering appends to that channel only, and the recording state is untouched |
| Observer.RemoveListener | utils/BackgroundAudioRecorder.js:429-448 | unsubscribing removes that listener from that channel and keeps every other listener and channel |
| Observer.AddThenRemove | utils/BackgroundAudioRecorder.js:436-441 | subscribing a new listener and calling its unsubscribe restores the registry exactly |
| Sync.FoldAppend | android/app/src/main/java/com/thiagolins/vocalizeai/AudioRecorderModule.java:40-177 | handling broadcasts one at a time composes: `a + b` is `a`, then `b` from where `a` left off |
| Sync.ReceiveAllAppend | android/app/src/main/java/com/thiagolins/vocalizeai/AudioRecorderModule.java:40-177 | the bridge receiving `a + b` is receiving `a`, then `b` |
| Sync.FlagFreeKeepsFlags | android/app/src/main/java/com/thiagolins/vocalizeai/AudioRecorderModule.java:43-56 | output-file and time broadcasts never move the cached flags |
| Sync.LastStatusDecides | android/app/src/main/java/com/thiagolins/vocalizeai/AudioRecorderModule.java:57-94 | after broadcasts ending in a status, the cache holds that status's flags |
| Sync.ApplyOutputShape | android/app/src/main/java/com/thiagolins/vocalizeai/ForegroundAudioRecorderService.kt:103-138 | every engine step of the program as written, the start while recording included, either keeps its flags and broadcasts only flag-free values, or ends its broadcasts with its own new status |
| Sync.EngineStep | android/app/src/main/java/com/thiagolins/vocalizeai/AudioRecorderModule.java:40-177 | one engine step whose broadcasts the bridge receives in order |
| Sync.StepKeepsAgreement | android/app/src/main/java/com/thiagolins/vocalizeai/AudioRecorderModule.java:57-94 | when engine and bridge agree on the flags, they still agree after a step |
| Sync.RunKeepsAgreement | android/app/src/main/java/com/thiagolins/vocalizeai/AudioRecorderModule.java:57-94 | from agreement, the bridge's flags equal the engine's after every run of steps, and the engine stays well formed |
| Sync.InitialAgree | android/app/src/main/java/com/thiagolins/vocalizeai/AudioRecorderModule.java:32-35 | the initial engine and bridge agree |
| Sync.HostResumeReconciles | android/app/src/main/java/com/thiagolins/vocalizeai/AudioRecorderModule.java:385-424 | after `onHostResume` and the engine's answer, the cache holds the engine's flags and time, and its file whenever it has one |
| Sync.DebounceDesync | android/app/src/main/java/com/thiagolins/vocalizeai/ForegroundAudioRecorderService.kt:107-112 | a pause then a resume 100 ms later, both resolved by the bridge, leave the engine paused and the bridge not |
| Sync.DeliverAll | utils/BackgroundAudioRecorder.js:207-249 | delivering events keeps every listener registry |
| Sync.DeliverFoldAppend | utils/BackgroundAudioRecorder.js:207-249 | handling events one at a time composes: `a + b` is `a`, then `b` from where `a` left off |
| Sync.DeliverAllKeepsListeners | utils/BackgroundAudioRecorder.js:207-249 | no run of events changes a listener registry |
| Sync.DeliverAllAppend | utils/BackgroundAudioRecorder.js:207-249 | delivering `a + b` is delivering `a`, then `b` |
| Sync.DeliverSnapshots | utils/BackgroundAudioRecorder.js:207-211 | a burst of one repeated snapshot leaves the observer holding exactly that snapshot |
| Sync.ReceiveKeepsReflection | android/app/src/main/java/com/thiagolins/vocalizeai/AudioRecorderModule.java:40-177 | the observer that agrees with the bridge still agrees once it has heard every event of one broadcast |
| Sync.CountCompletions | android/app/src/main/java/com/thiagolins/vocalizeai/ForegroundAudioRecorderService.kt:414-426 | the count of completion broadcasts is bounded by the length and zero exactly when there is none |
| Sync.CountCompletionsAppend | android/app/src/main/java/com/thiagolins/vocalizeai/ForegroundAudioRecorderService.kt:414-426 | completion counts add up over concatenation |
| Sync.ReceiveCompleteEvents | android/app/src/main/java/com/thiagolins/vocalizeai/AudioRecorderModule.java:113-158 | one broadcast yields a completion event exactly when it is a completion naming a file with content |
| Sync.ReceiveAllCompleteEvents | android/app/src/main/java/com/thiagolins/vocalizeai/AudioRecorderModule.java:113-158 | every completion of a file with content reaches JavaScript as one completion event, and nothing else does |
| Sync.NotifyAllCompleteNotices | utils/BackgroundAudioRecorder.js:239-249 | a completion notice reaches each listener the loop reaches once, and no other notice counts |
| Sync.DeliverCompleteNotices | utils/BackgroundAudioRecorder.js:207-249 | an event reaches the completion listeners only when it is a completion, and then as many as the loop reaches |
| Sync.DeliverAllCompleteNotices | utils/BackgroundAudioRecorder.js:239-249 | the completion listeners the loop reaches are called once each per completion event, and at no other time |
| Sync.StopCompletionCount | android/app/src/main/java/com/thiagolins/vocalizeai/ForegroundAudioRecorderService.kt:398-442 | a stop of a file with content broadcasts three completions after a successful copy and one after a failed copy |
| Sync.CompletionsReachListeners | android/app/src/main/java/com/thiagolins/vocalizeai/AudioRecorderModule.java:113-158 | completions of files with content reach the completion listeners once each, up to the first that throws |
| Sync.StopNotifiesCompletionThrice | android/app/src/main/java/com/thiagolins/vocalizeai/ForegroundAudioRecorderService.kt:414-426 | end to end, a stop with a successful copy produces three completion events and calls each reached completion listener three times, every one of them when none throws |
| Sync.CommandThenEngineAgrees | android/app/src/main/java/com/thiagolins/vocalizeai/AudioRecorderModule.java:264-361 | from agreement, a command whose intent reaches the engine outside the debounce window (a start: with the recorder starting and the bridge unpaused) leaves engine and bridge agreeing once the broadcasts are received, and a resolved start, pause or resume had already committed the engine's final flags |
| Sync.StartWhilePausedDesync | android/app/src/main/java/com/thiagolins/vocalizeai/AudioRecorderModule.java:264-294 | a start accepted by the bridge while paused leaves the engine paused and the bridge believing it is not |
| Sync.ForceStopThenEngineAgrees | android/app/src/main/java/com/thiagolins/vocalizeai/AudioRecorderModule.java:241-262 | a force stop that went through leaves the engine idle with no file and no time and the bridge agreeing with it; a resolved one emitted exactly the engine's final state |
| Sync.Issue | utils/BackgroundAudioRecorder.js:331-405 | the bridge is called exactly when the observer's own guard for the command passes |
| Sync.ObserverCommandReflects | utils/BackgroundAudioRecorder.js:331-405 | from agreement, observer and bridge agree after any command; the observer reports success exactly when the bridge resolved; the bridge never refuses a command the observer let through for its state |
| Sync.ReceiveAllKeepsReflection | android/app/src/main/java/com/thiagolins/vocalizeai/AudioRecorderModule.java:40-177 | the observer keeps agreeing with the bridge across any run of broadcasts once it has heard every resulting event |
| Sync.CommandKeepsSessionAgreeing | utils/BackgroundAudioRecorder.js:331-405 | a command issued from JavaScript, end to end: observer, bridge and engine agree before and again once the engine acted and the events reached the observer |
| AudioValidation.ValidateAudioFile | utils/ValidateAudioFile.js:1-55 | an exception reports its message against the URI as given; otherwise the URI is normalised; valid exactly when the file exists with content and loads, and then the size is the file's; a missing file and an empty file report their own errors; every failure has an error and no size |
| AudioValidation.ValidationIgnoresScheme | utils/ValidateAudioFile.js:4 | a path and its `file://` URI get the same verdict |
| AudioValidation.ValidationChecksThePath | utils/ValidateAudioFile.js:4-40 | a plain path is valid exactly when that path has content and loads, with its own size |
| ParticipantForm.ValidateNomeAsWritten | app/auth/cadastro-participante.tsx:39-54 | the code as written: accepted exactly when not blank and every character is in `[a-zA-ZÀ-ÿ\s]`, and only then with no error |
| ParticipantForm.ValidateNome | app/auth/cadastro-participante.tsx:39-54 | the corrected check: a blank name is required, and any other failure is the letters-only error |
| ParticipantForm.NameCharIsLetterOrSpace | app/auth/cadastro-participante.tsx:46 | the corrected class is exactly the Latin letters and white space, which do not overlap |
| ParticipantForm.ValidateNomeMeansLetters | app/auth/cadastro-participante.tsx:39-54 | the corrected check accepts exactly the names of letters and white space with at least one letter |
| ParticipantForm.NameAcceptsMultiplicationSign | app/auth/cadastro-participante.tsx:46 | "Ana × Bia" passes the check as written and fails the corrected one |
| ParticipantForm.ValidateIdade | app/auth/cadastro-participante.tsx:56-70 | accepted exactly when not blank and `parseInt` reads 1 to 99; a blank age is required, any other failure is the range error |
| ParticipantForm.ValidateIdadeOfNumber | app/auth/cadastro-participante.tsx:56-70 | an age typed as a plain number is accepted exactly when it is 1 to 99 |
| ParticipantForm.ValidateIdadeIgnoresTrailingText | app/auth/cadastro-participante.tsx:62-63 | "12 anos" is accepted, because `parseInt` stops at the space |
| ParticipantForm.OpenModalWith | app/auth/cadastro-participante.tsx:72-77 | given the name's verdict: the age is checked first and its error set; only a valid age lets the name's error be set; the modal opens exactly when both are valid |
| ParticipantForm.HandleOpenModal | app/auth/cadastro-participante.tsx:46-77 | the screen's handler with the class as written: the age error is set first, the name error only after a valid age, and the modal opens exactly when the age and the as-written name check both pass |
| ParticipantForm.HandleOpenModalCorrected | app/auth/cadastro-participante.tsx:72-77 | the corrected half of the name finding: the same gate with the letters-only name check |
| ParticipantForm.SupportLevel | app/auth/cadastro-participante.tsx:86-87 | the label "Não sei informar" is sent as 0 |
| ParticipantForm.PayloadOf | app/auth/cadastro-participante.tsx:83-90 | the payload carries the screen's gender, word count and name, and the parsed age and level |
| ParticipantForm.OpenModalMeansValidPayload | app/auth/cadastro-participante.tsx:72-90 | whenever the screen's handler opens the modal, the payload's age is 1 to 99 and its name is not blank and drawn from `[a-zA-ZÀ-ÿ\s]`, × and ÷ included |
| ParticipantForm.OpenModalCorrectedMeansValidPayload | app/auth/cadastro-participante.tsx:72-90 | whenever the corrected handler opens the modal, the payload's age is 1 to 99 and its name is letters and spaces with at least one letter |
| ParticipantForm.OpenModalAcceptsMultiplicationSign | app/auth/cadastro-participante.tsx:46 | with age "12 anos", the screen opens the modal for "Ana × Bia" and the corrected handler shows the letters-only error |
| ParticipantForm.SupportLevelOfOptions | app/auth/cadastro-participante.tsx:86-87 | the select's values "1", "2", "3" and "0" are sent as those numbers, and the label would be sent as 0 too |
| ParticipantForm.HandleCreateAnother | app/auth/cadastro-participante.tsx:126-134 | the participant fields return to the initial defaults (lines 22-28) and the success modal closes; errors and the confirmation modal stay |
| ParticipantForm.CreateAnotherIdempotent | app/auth/cadastro-participante.tsx:126-134 | resetting twice is resetting once |
| PasswordChange.HandleSenhaChange | app/auth/trocar-senha.tsx:27-41 | the password's error clears exactly for an acceptable password; a valid password re-checks a confirmation already typed, otherwise the confirmation's error stays |
| PasswordChange.HandleConfirmaSenhaChange | app/auth/trocar-senha.tsx:43-52 | the confirmation's error clears exactly when the text is present and equals the password |
| PasswordChange.HandleChangePassword | app/auth/trocar-senha.tsx:54-73 | `resetPassword` is called exactly when the password is acceptable and confirmed; each failing check sets only its own error, in order |
| PasswordChange.LiveErrorsPredictSubmission | app/auth/trocar-senha.tsx:27-73 | after typing a password and then its confirmation, submission goes through exactly when neither field shows an error |
| PasswordChange.LengthCountsCodeUnits | app/auth/trocar-senha.tsx:31 | three characters outside the Basic Multilingual Plane already pass the six-character check |
| AuthService.MatchesEmail | services/authService.ts:135 | one scan decides `^\S+@\S+\.\S+$` exactly |
| AuthService.EmailExamples | services/authService.ts:135 | the pattern accepts a plain address and refuses one without a dot, without a local part, with an empty domain label, or with a space |
| AuthService.RegisterPrecheck | services/authService.ts:120-149 | `register` goes to the server exactly when every field is present, the e-mail matches and the passwords agree; each refusal carries its own message and kind, in order |
| AuthService.SaveTokens | services/authService.ts:14-22 | the four keys are written and every other key kept |
| AuthService.ExpiryRoundTrip | services/authService.ts:14-22 | the expiry read back by `getExpirationTime` is `exp * 1000` |
| AuthService.NumberOfIntToString | services/authService.ts:95-98 | `Number` reads back what `toString` wrote for an integer |
| AuthService.GetExpirationTime | services/authService.ts:95-98 | with no stored expiry, `Number(null)` is 0 |
| AuthService.TokenUpdateRoutine | services/authService.ts:102-110 | an interval starts only when none runs, under a non-zero handle, and the flag then tells that one runs |
| AuthService.StopTokenUpdateRoutine | services/authService.ts:112-118 | no interval runs afterwards; a stop with none running changes nothing |
| AuthService.RoutineAtMostOnce | services/authService.ts:102-118 | starting twice keeps the first interval, stopping twice is stopping once, and a stopped refresher starts afresh |
| AuthService.UpdateToken | services/authService.ts:24-60 | without a token the refresher stops and the user goes to login; a new token is stored with its expiry and the routine runs; a failure or an empty token shows its own message; the refresher's flag stays consistent |
| SignupForm.NomeError | app/auth/cadastro.tsx:49-54 | the name has no error exactly when it is not blank |
| SignupForm.CelularError | app/auth/cadastro.tsx:56-61 | the phone has no error exactly when it has at least 11 code units |
| SignupForm.EmailError | app/auth/cadastro.tsx:63-71 | the e-mail has no error exactly when it is not blank and `validarEmail` accepts it; blank is "required", otherwise "invalid" |
| SignupForm.SenhaError | app/auth/cadastro.tsx:73-81 | the password has no error exactly when it has at least 6 code units; empty is "required", otherwise "too short" |
| SignupForm.ConfirmaSenhaError | app/auth/cadastro.tsx:83-88 | the confirmation has no error exactly when it equals the password |
| SignupForm.ValidarCampos | app/auth/cadastro.tsx:46-101 | every field's error is set, with no check skipped; refused terms raise the toast titled "Erro ao cadastrar usuário" with the terms message; valid exactly when no error and no toast |
| SignupForm.ValidMeansEveryField | app/auth/cadastro.tsx:46-101 | the screen is valid exactly when each field and the terms are |
| SignupForm.ErrorsAreIndependent | app/auth/cadastro.tsx:46-101 | changing the phone leaves every other field's error as it was |
| SignupForm.HandleRegister | app/auth/cadastro.tsx:121-124 | `register` is called exactly when validation passes |
| SignupForm.ScreenChecksCoverRegister | app/auth/cadastro.tsx:121-124 | a screen that passed its checks never meets `register`'s "all fields" refusal, can only be refused for the e-mail format, and goes to the server whenever the e-mail matches the pattern |

## Left out

- Events reach JavaScript only while a React instance is active.
  `sendEvent` (AudioRecorderModule.java:209-231) otherwise posts one retry
  and, if the instance is still inactive, drops the event. The model delivers
  every emission, so the observer-side results (`Sync.ReceiveKeepsReflection`,
  `Sync.StopNotifiesCompletionThrice`, `Sync.CommandKeepsSessionAgreeing`)
  hold only while an instance is active.
- The media recorder, wake lock, notifications and their actions, the
  foreground-service lifecycle, and `onTaskRemoved`: platform I/O. The
  engine sees them only through the start and copy outcomes in `Env`.
- Broadcast retries (`sendBroadcastWithRetry`), `Handler.postDelayed`,
  `Thread.sleep` and the timer's scheduling. Broadcasts and events are
  ordered values; a delayed re-send carries its delay but is not
  interleaved with later events.
- The pre-Android-N branches of pause and resume. The media recorder's own
  pause, resume and stop calls, and their exceptions, are left out too.
- Real file operations (copy, `setReadable`, delete, the files directory)
  and the modules `FileOperationsModule.java` and `utils/FileOperations.js`.
  The file system is a map from path to size, and a copy either succeeds or
  fails.
- Numeric limits: `Long` overflow, `Double` conversion of times, and
  JavaScript numbers beyond 2^53. Integers are unbounded.
- `Audio.Sound.createAsync`, `FileSystem.getInfoAsync` and the unloading of
  the sound: foreign calls whose outcomes are parameters.
- The observer's `syncOutputFile`, `checkOutputFile`, `verifyRecording`,
  `getStatus`, `cleanup` and the plain getters: they only read or log.
- HTTP calls, AsyncStorage beyond a key/value map, JWT decoding, flash
  messages and routing. `doLogin`, `doLogout` and the server side of
  `register` are left out: they are calls to the server.
- `resetPassword` and `createParticipante`: server calls. The screens model
  only the decision to call them.
- The sign-up screen's `handleEmailChange` and `handleCelularChange`: live
  handlers outside the validation and the register gate.
- `validarEmail` is not part of this model; it is a parameter of the
  sign-up checks.
- AuthService.NumberOf: reads only `null`, blank text and optionally signed
  decimal integers. Other inputs (fractions, exponents, hexadecimal,
  `Infinity`) are all `None`, because the stored expiry is always a decimal
  integer.
- Numerals.ParseInt: its own contract only says a result needs a digit.
  What it reads is stated by the lemmas `ParseIntNatToString` and
  `ParseIntStopsAtNonDigit`.
- Engine.OnStartCommandAsWritten: its contract states only the debounce.
  The difference from the corrected command is shown by
  `StartWhileRecordingShiftsTimer`.
- Engine.FormatTime: the contract covers non-negative times only, which are
  the only times the engine produces.
- What the React Native runtime does with an exception a listener throws out
  of an event handler: platform behaviour. The handler's loop stops there and
  the next event is delivered as usual.
- Observer.ForceStopService: the reset it leaves pending is `ResetState` on
  whatever state the observer holds when that reset's own native call
  settles. How it interleaves with the events arriving meanwhile is not
  modelled.

## Findings

| source | as written | input that shows it | evidently intended | confidence | as-written member | corrected member |
|---|---|---|---|---|---|---|
| android/app/src/main/java/com/thiagolins/vocalizeai/ForegroundAudioRecorderService.kt:115-118 | a start intent sets `elapsedTimeBeforePause` before `startRecording` checks `isRecording`, so a start while recording changes the running timer's base | recording started at 0 ms with 10 s shown; a start intent carrying 100 at 10 000 ms; the firing at 11 000 ms reports 111 s instead of 11 s | a start while recording is ignored entirely, as the guard at lines 180-182 means | not executed | Engine.OnStartCommandAsWritten (Engine.StartWhileRecordingShiftsTimer) | Engine.OnStartCommand (Engine.StartDispatchesDifferOnlyInBase) |
| app/auth/cadastro-participante.tsx:46 | the class `[a-zA-ZÀ-ÿ\s]` spans U+00C0 to U+00FF, which includes the multiplication sign × (U+00D7) and the division sign ÷ (U+00F7) | "Ana × Bia" passes `validateNome` | names of letters and spaces only, as the error message says | not executed | ParticipantForm.ValidateNomeAsWritten (ParticipantForm.NameAcceptsMultiplicationSign, ParticipantForm.OpenModalAcceptsMultiplicationSign) | ParticipantForm.ValidateNome (ParticipantForm.ValidateNomeMeansLetters, ParticipantForm.OpenModalCorrectedMeansValidPayload) |

The engine, the session theorems in `Sync` and the screen's
`HandleOpenModal` run the code as written. The corrected members stand beside
them: `Engine.StartDispatchesDifferOnlyInBase` shows the corrected dispatch
changes nothing but the timer base, and `HandleOpenModalCorrected` is the
screen's gate with the corrected name check.
