/**
  The background recording engine (`ForegroundAudioRecorderService`): the
  authoritative recording flags, the guarded start / pause / resume / stop
  transitions driven by intent actions, the once-per-second elapsed-time
  timer, and the broadcasts it sends to whoever listens.

  Platform effects are outcomes handed in through `Env`: whether the media
  recorder starts, whether the copy of a finished file succeeds, and the wall
  clock. Broadcasts are values appended to the step's output.
 */
module Engine {
  import opened Common
  import opened Numerals

  /** Actions closer together than this many milliseconds are ignored. */
  const DebounceMs: int := 300
  /** Period of the elapsed-time timer in milliseconds. */
  const TickMs: int := 1000

  /** The service's fields. `timerStart` is the instant the running timer was
      scheduled, `None` when no timer runs. Times are in seconds except the
      two wall-clock instants, which are in milliseconds. */
  datatype Service = Service(
    outputFile: Option<string>,
    isRecording: bool,
    isPaused: bool,
    recordingStartTime: int,
    elapsedTimeBeforePause: int,
    currentRecordingTime: int,
    timerStart: Option<int>,
    lastActionTimestamp: int)

  const Initial: Service := Service(None, false, false, 0, 0, 0, None, 0)

  /** The broadcast intents exchanged between the engine and the bridge. */
  datatype Broadcast =
    | OutputFileSet(file: Option<string>)
    | RecordingStatus(isRecording: bool, isPaused: bool, file: Option<string>, currentTime: int)
    | TimeUpdate(currentTime: int, file: Option<string>)
    | RecordingCompleted(file: Option<string>, originalFile: Option<string>, duration: int)
    | RecordingError(error: Option<string>)

  /** The action of an intent delivered to `onStartCommand`. */
  datatype Action =
    | StartAction(elapsedBeforePause: int)
    | PauseAction
    | ResumeAction
    | StopAction
    | OtherAction(name: string)

  /** What the platform decides during one call: the clock at the call and a
      later reading, the app's files directory, whether the media recorder
      prepares and starts, and whether copying a finished file succeeds. */
  datatype Env = Env(now: int, later: int, filesDir: string, recorderStarts: bool, copySucceeds: bool)

  /** A transition that touches only the service. */
  datatype Step = Step(svc: Service, out: seq<Broadcast>)

  /** A transition that may also touch the file system. */
  datatype Run = Run(svc: Service, out: seq<Broadcast>, fs: FileSys)

  /** The result of `stopRecording`: the transition and the path it returns. */
  datatype Stopped = Stopped(svc: Service, out: seq<Broadcast>, fs: FileSys, result: Option<string>)

  /** The well-formed states: paused only while recording, a named output
      while recording, and the timer running exactly while recording and not
      paused. */
  predicate Valid(s: Service) {
    && (s.isPaused ==> s.isRecording)
    && (s.isRecording ==> Truthy(s.outputFile))
    && (s.timerStart.Some? <==> s.isRecording && !s.isPaused)
  }

  /** The status broadcast describing `s`. */
  function StatusOf(s: Service): Broadcast {
    RecordingStatus(s.isRecording, s.isPaused, s.outputFile, s.currentRecordingTime)
  }

  predicate IsCompletion(b: Broadcast) {
    b.RecordingCompleted?
  }

  /** `<filesDir>/audiorecordings/recording_<millis>.m4a`. */
  function RecordingPath(filesDir: string, millis: int): (p: string)
    ensures p != []
  {
    filesDir + "/audiorecordings/recording_" + IntToString(millis) + ".m4a"
  }

  /** `<filesDir>/latest_recording_<millis>.m4a`, the readable copy. */
  function LatestPath(filesDir: string, millis: int): string {
    filesDir + "/latest_recording_" + IntToString(millis) + ".m4a"
  }

  // ---------------------------------------------------------------------------
  // Resetting
  // ---------------------------------------------------------------------------

  /** `resetRecordingState(f)`: both flags down, all times zero, the output
      set to `f`, and a status broadcast announcing exactly that. */
  function ResetRecordingState(s: Service, f: Option<string>): (r: Step)
    ensures !r.svc.isRecording && !r.svc.isPaused && r.svc.outputFile == f
    ensures r.svc.currentRecordingTime == 0 && r.svc.elapsedTimeBeforePause == 0 && r.svc.recordingStartTime == 0
    ensures r.svc.timerStart == s.timerStart && r.svc.lastActionTimestamp == s.lastActionTimestamp
    ensures r.out == [RecordingStatus(false, false, f, 0)] == [StatusOf(r.svc)]
  {
    var t := s.(isRecording := false, isPaused := false, outputFile := f,
                currentRecordingTime := 0, elapsedTimeBeforePause := 0, recordingStartTime := 0);
    Step(t, [RecordingStatus(false, false, f, 0)])
  }

  /** `clearState`: the reset with no output file. It leaves the recording
      start instant alone, unlike `resetRecordingState`. */
  function ClearState(s: Service): (r: Step)
    ensures !r.svc.isRecording && !r.svc.isPaused && r.svc.outputFile == None
    ensures r.svc.currentRecordingTime == 0 && r.svc.elapsedTimeBeforePause == 0
    ensures r.svc.recordingStartTime == s.recordingStartTime && r.svc.timerStart == s.timerStart
    ensures r.out == [StatusOf(r.svc)]
  {
    var t := s.(isRecording := false, isPaused := false, outputFile := None,
                currentRecordingTime := 0, elapsedTimeBeforePause := 0);
    Step(t, [RecordingStatus(false, false, None, 0)])
  }

  /** `clearState` is `resetRecordingState(null)` apart from the start instant. */
  lemma ClearIsResetToNull(s: Service)
    ensures ClearState(s).svc == ResetRecordingState(s, None).svc.(recordingStartTime := s.recordingStartTime)
    ensures ClearState(s).out == ResetRecordingState(s, None).out
  {
  }

  // ---------------------------------------------------------------------------
  // Start, pause, resume
  // ---------------------------------------------------------------------------

  /** `startRecording`, with `elapsedTimeBeforePause` already set by the caller.
      When the media recorder fails after the output path was announced, the
      output is dropped and the service is not recording. */
  function StartRecording(s: Service, env: Env): (r: Step)
    ensures s.isRecording ==> r == Step(s, [])
    ensures !s.isRecording && env.recorderStarts ==>
      && r.svc.isRecording && !r.svc.isPaused
      && r.svc.outputFile == Some(RecordingPath(env.filesDir, env.now))
      && r.svc.currentRecordingTime == s.elapsedTimeBeforePause
      && r.svc.elapsedTimeBeforePause == s.elapsedTimeBeforePause
      && r.svc.timerStart == Some(env.now)
      && |r.out| == 4 && r.out[0] == OutputFileSet(r.svc.outputFile)
      && (forall i :: 1 <= i < 4 ==> r.out[i] == StatusOf(r.svc))
    ensures !s.isRecording && !env.recorderStarts ==>
      && !r.svc.isRecording && r.svc.outputFile == None
      && r.svc.isPaused == s.isPaused && r.svc.timerStart == s.timerStart
      && r.out == [OutputFileSet(Some(RecordingPath(env.filesDir, env.now)))]
  {
    if s.isRecording then Step(s, [])
    else
      var path := RecordingPath(env.filesDir, env.now);
      var announced := OutputFileSet(Some(path));
      if env.recorderStarts then
        var t := s.(currentRecordingTime := s.elapsedTimeBeforePause, outputFile := Some(path),
                    isRecording := true, isPaused := false, recordingStartTime := env.now,
                    timerStart := Some(env.now));
        var status := RecordingStatus(true, false, Some(path), t.currentRecordingTime);
        Step(t, [announced, status, status, status])
      else
        var t := s.(currentRecordingTime := s.elapsedTimeBeforePause, outputFile := None, isRecording := false);
        Step(t, [announced])
  }

  /** `pauseRecording`: applied only while recording and not paused; it stops
      the timer, freezes the elapsed time and announces the pause three times. */
  function PauseRecording(s: Service): (r: Step)
    ensures !s.isRecording || s.isPaused ==> r == Step(s, [])
    ensures s.isRecording && !s.isPaused ==>
      && r.svc == s.(isPaused := true, timerStart := None, elapsedTimeBeforePause := s.currentRecordingTime)
      && |r.out| == 3 && forall i :: 0 <= i < 3 ==> r.out[i] == StatusOf(r.svc)
  {
    if !s.isRecording || s.isPaused then Step(s, [])
    else
      var t := s.(isPaused := true, timerStart := None, elapsedTimeBeforePause := s.currentRecordingTime);
      var status := RecordingStatus(t.isRecording, true, t.outputFile, t.currentRecordingTime);
      Step(t, [status, status, status])
  }

  /** `resumeRecording`: applied only while recording and paused; it restarts
      the timer at `now` and announces the resumption three times. */
  function ResumeRecording(s: Service, now: int): (r: Step)
    ensures !s.isRecording || !s.isPaused ==> r == Step(s, [])
    ensures s.isRecording && s.isPaused ==>
      && r.svc == s.(isPaused := false, timerStart := Some(now))
      && |r.out| == 3 && forall i :: 0 <= i < 3 ==> r.out[i] == StatusOf(r.svc)
  {
    if !s.isRecording || !s.isPaused then Step(s, [])
    else
      var t := s.(isPaused := false, timerStart := Some(now));
      var status := RecordingStatus(true, false, t.outputFile, t.currentRecordingTime);
      Step(t, [status, status, status])
  }

  // ---------------------------------------------------------------------------
  // Stop
  // ---------------------------------------------------------------------------

  /** `stopRecording`. Not recording: nothing happens and the result is null.
      Otherwise the flags drop, the timer stops, and the artifact decides the
      rest: a file with content is copied to a readable location and announced
      as completed three times (once, under its own name, when the copy
      fails); an empty file is deleted; a missing file is only forgotten.
      Every path ends in `resetRecordingState`. */
  function StopRecording(s: Service, fs: FileSys, env: Env): (r: Stopped)
    ensures !s.isRecording ==> r == Stopped(s, [], fs, None)
    ensures s.isRecording ==>
      && !r.svc.isRecording && !r.svc.isPaused && r.svc.timerStart == None
      && r.svc.currentRecordingTime == 0 && r.svc.elapsedTimeBeforePause == 0
      && r.svc.outputFile == r.result
      && |r.out| >= 2 && r.out[|r.out| - 1] == StatusOf(r.svc)
    ensures s.isRecording ==>
      (r.result.Some? <==> s.outputFile.Some? && HasContent(fs, s.outputFile.value))
    ensures r.result.Some? ==> HasContent(r.fs, r.result.value)
    ensures forall i :: 0 <= i < |r.out| && IsCompletion(r.out[i]) ==>
      r.out[i].file.Some? && HasContent(r.fs, r.out[i].file.value)
      && r.out[i].duration == s.currentRecordingTime
    ensures s.isRecording && s.outputFile.Some? && s.outputFile.value in fs && fs[s.outputFile.value] == 0 ==>
      && s.outputFile.value !in r.fs && r.result == None
      && forall i :: 0 <= i < |r.out| ==> !IsCompletion(r.out[i])
  {
    if !s.isRecording then Stopped(s, [], fs, None)
    else
      var finalFile := s.outputFile;
      var stopped := s.(timerStart := None, isRecording := false, isPaused := false);
      var announced := RecordingStatus(false, false, finalFile, s.currentRecordingTime);
      match finalFile
      case None =>
        var reset := ResetRecordingState(stopped, None);
        Stopped(reset.svc, [announced] + reset.out, fs, None)
      case Some(f) =>
        if f !in fs then
          var reset := ResetRecordingState(stopped, None);
          Stopped(reset.svc, [announced] + reset.out, fs, None)
        else if fs[f] > 0 then
          if env.copySucceeds then
            var copy := LatestPath(env.filesDir, env.later);
            var fs' := fs[copy := fs[f]];
            var done := RecordingCompleted(Some(copy), Some(f), s.currentRecordingTime);
            var reset := ResetRecordingState(stopped, Some(copy));
            Stopped(reset.svc, [announced, done, done, done] + reset.out, fs', Some(copy))
          else
            var done := RecordingCompleted(Some(f), None, s.currentRecordingTime);
            var reset := ResetRecordingState(stopped, Some(f));
            Stopped(reset.svc, [announced, done] + reset.out, fs, Some(f))
        else
          var reset := ResetRecordingState(stopped, None);
          Stopped(reset.svc, [announced] + reset.out, fs - {f}, None)
  }

  // ---------------------------------------------------------------------------
  // The timer
  // ---------------------------------------------------------------------------

  /** One firing of the timer at wall-clock `now`: the elapsed time becomes the
      time frozen at the last pause plus the whole seconds since the timer was
      scheduled, and a time update is broadcast. No timer, no firing. */
  function Tick(s: Service, now: int): (r: Step)
    ensures s.timerStart.None? ==> r == Step(s, [])
    ensures s.timerStart.Some? ==>
      && r.svc == s.(currentRecordingTime := r.svc.currentRecordingTime)
      && r.out == [TimeUpdate(r.svc.currentRecordingTime, s.outputFile)]
    ensures s.timerStart.Some? && now >= s.timerStart.value ==>
      r.svc.currentRecordingTime == s.elapsedTimeBeforePause + (now - s.timerStart.value) / TickMs
    ensures s.timerStart.Some? && now >= s.timerStart.value ==>
      s.elapsedTimeBeforePause <= r.svc.currentRecordingTime
      <= s.elapsedTimeBeforePause + (now - s.timerStart.value) / TickMs
  {
    match s.timerStart
    case None => Step(s, [])
    case Some(start) =>
      var elapsedSeconds := TruncDiv(now - start, TickMs);
      var t := s.(currentRecordingTime := s.elapsedTimeBeforePause + elapsedSeconds);
      Step(t, [TimeUpdate(t.currentRecordingTime, t.outputFile)])
  }

  /** Within one run of the timer, a later firing never reports less time. */
  lemma TickNonDecreasing(s: Service, n1: int, n2: int)
    requires s.timerStart.Some? && n1 <= n2
    ensures Tick(Tick(s, n1).svc, n2).svc.currentRecordingTime >= Tick(s, n1).svc.currentRecordingTime
  {
    TruncDivMonotone(n1 - s.timerStart.value, n2 - s.timerStart.value, TickMs);
  }

  /** Pausing freezes the elapsed time: after a resume, no firing reports less
      than the time shown when the pause happened. */
  lemma PauseResumeKeepsTime(s: Service, resumeAt: int, now: int)
    requires s.isRecording && !s.isPaused && resumeAt <= now
    ensures var p := PauseRecording(s).svc;
            && Tick(p, now) == Step(p, [])
            && Tick(ResumeRecording(p, resumeAt).svc, now).svc.currentRecordingTime >= s.currentRecordingTime
  {
  }

  // ---------------------------------------------------------------------------
  // onStartCommand and the other entry points
  // ---------------------------------------------------------------------------

  /** `onStartCommand` AS WRITTEN: it stores the intent's elapsed time before
      `startRecording` looks at `isRecording`, so a start that arrives while
      recording still changes the base of the running timer. */
  function OnStartCommandAsWritten(s: Service, action: Option<Action>, fs: FileSys, env: Env): (r: Run)
    ensures action.Some? && env.now - s.lastActionTimestamp < DebounceMs ==> r == Run(s, [], fs)
  {
    if action.Some? && env.now - s.lastActionTimestamp < DebounceMs then Run(s, [], fs)
    else
      var t := s.(lastActionTimestamp := env.now);
      match action
      case Some(StartAction(e)) =>
        var st := StartRecording(t.(elapsedTimeBeforePause := e), env);
        Run(st.svc, st.out, fs)
      case _ => Dispatch(t, action, fs, env)
  }

  /** `onStartCommand` as evidently intended: a start while recording is
      ignored entirely, as `startRecording`'s own guard means it to be. */
  function OnStartCommand(s: Service, action: Option<Action>, fs: FileSys, env: Env): (r: Run)
    ensures action.Some? && env.now - s.lastActionTimestamp < DebounceMs ==> r == Run(s, [], fs)
    ensures !(action.Some? && env.now - s.lastActionTimestamp < DebounceMs) ==>
      r.svc.lastActionTimestamp == env.now
    ensures action.Some? && action.value.StartAction? && s.isRecording ==>
      r == Run(s.(lastActionTimestamp := r.svc.lastActionTimestamp), [], fs)
    ensures action.Some? && (action.value.PauseAction? || action.value.ResumeAction?) ==> r.fs == fs
  {
    if action.Some? && env.now - s.lastActionTimestamp < DebounceMs then Run(s, [], fs)
    else
      var t := s.(lastActionTimestamp := env.now);
      match action
      case Some(StartAction(e)) =>
        if t.isRecording then Run(t, [], fs)
        else
          var st := StartRecording(t.(elapsedTimeBeforePause := e), env);
          Run(st.svc, st.out, fs)
      case _ => Dispatch(t, action, fs, env)
  }

  /** The non-start branches of `onStartCommand`, after the debounce. A stop
      also stops the service; its `onDestroy` is a separate entry point. */
  function Dispatch(t: Service, action: Option<Action>, fs: FileSys, env: Env): (r: Run)
    ensures action.None? || action.value.OtherAction? ==> r == Run(t, [], fs)
  {
    match action
    case None => Run(t, [], fs)
    case Some(OtherAction(_)) => Run(t, [], fs)
    case Some(StartAction(_)) => Run(t, [], fs)
    case Some(PauseAction) =>
      if t.isRecording && !t.isPaused then var p := PauseRecording(t); Run(p.svc, p.out, fs)
      else Run(t, [], fs)
    case Some(ResumeAction) =>
      if t.isRecording && t.isPaused then var p := ResumeRecording(t, env.now); Run(p.svc, p.out, fs)
      else Run(t, [], fs)
    case Some(StopAction) =>
      var st := StopRecording(t, fs, env);
      Run(st.svc, st.out, st.fs)
  }

  /** `onDestroy`: stop whatever is recording, then clear the state. */
  function OnDestroy(s: Service, fs: FileSys, env: Env): (r: Run)
    ensures !r.svc.isRecording && !r.svc.isPaused && r.svc.outputFile == None
    ensures r.svc.currentRecordingTime == 0 && r.svc.elapsedTimeBeforePause == 0
    ensures |r.out| >= 1 && r.out[|r.out| - 1] == RecordingStatus(false, false, None, 0)
  {
    var st := StopRecording(s, fs, env);
    var cl := ClearState(st.svc);
    Run(cl.svc, st.out + cl.out, st.fs)
  }

  /** Answer to `REQUEST_STATUS`: the current status, nothing changed. */
  function RequestStatus(s: Service): (r: Step)
    ensures r.svc == s
    ensures r.out == [RecordingStatus(s.isRecording, s.isPaused, s.outputFile, s.currentRecordingTime)]
  {
    Step(s, [StatusOf(s)])
  }

  /** Answer to `REQUEST_OUTPUT_FILE`: the current output, which may be null. */
  function RequestOutputFile(s: Service): (r: Step)
    ensures r.svc == s && r.out == [OutputFileSet(s.outputFile)]
  {
    Step(s, [OutputFileSet(s.outputFile)])
  }

  // ---------------------------------------------------------------------------
  // Every entry point keeps the service well formed
  // ---------------------------------------------------------------------------

  /** Everything that can happen to the service. */
  datatype Input =
    | Intent(action: Option<Action>)
    | TimerFires
    | StatusRequested
    | OutputFileRequested
    | Destroyed

  /** The service as the program runs it: intents go through `onStartCommand`
      as written, and after `onDestroy` the next intent finds a fresh service
      whose fields start from their declared initial values. */
  function Apply(s: Service, input: Input, fs: FileSys, env: Env): Run {
    match input
    case Intent(a) => OnStartCommandAsWritten(s, a, fs, env)
    case TimerFires => var st := Tick(s, env.now); Run(st.svc, st.out, fs)
    case StatusRequested => var st := RequestStatus(s); Run(st.svc, st.out, fs)
    case OutputFileRequested => var st := RequestOutputFile(s); Run(st.svc, st.out, fs)
    case Destroyed => var d := OnDestroy(s, fs, env); Run(Initial, d.out, d.fs)
  }

  /** Destroying the service broadcasts what `onDestroy` broadcasts and leaves
      nothing behind: the next service starts with the initial fields, its
      debounce clock at zero. */
  lemma DestroyedStartsFresh(s: Service, fs: FileSys, env: Env)
    ensures Apply(s, Destroyed, fs, env).svc == Initial
    ensures Apply(s, Destroyed, fs, env).out == OnDestroy(s, fs, env).out
    ensures Apply(s, Destroyed, fs, env).fs == OnDestroy(s, fs, env).fs
    ensures Apply(s, Destroyed, fs, env).svc == OnDestroy(s, fs, env).svc.(
      recordingStartTime := 0, lastActionTimestamp := 0, timerStart := None)
  {
  }

  /** A stop accepted at 1000 ms and the service destroyed: a start at 1200 ms
      is within the debounce window of the stop, yet the fresh service accepts
      it and starts recording. */
  lemma StartAfterDestroyAccepted()
    ensures
      var s := Service(Some("/r.m4a"), true, false, 0, 0, 0, Some(0), 0);
      var e1 := Env(1000, 1000, "/files", true, true);
      var e2 := Env(1200, 1200, "/files", true, true);
      var stopped := Apply(s, Intent(Some(StopAction)), map[], e1);
      var destroyed := Apply(stopped.svc, Destroyed, stopped.fs, e1);
      var started := Apply(destroyed.svc, Intent(Some(StartAction(0))), destroyed.fs, e2);
      && stopped.svc.lastActionTimestamp == 1000
      && started.svc.isRecording && started.out != []
  {
    var e1 := Env(1000, 1000, "/files", true, true);
    var e2 := Env(1200, 1200, "/files", true, true);
    var s := Service(Some("/r.m4a"), true, false, 0, 0, 0, Some(0), 0);
    var stopped := Apply(s, Intent(Some(StopAction)), map[], e1);
    var destroyed := Apply(stopped.svc, Destroyed, stopped.fs, e1);
    assert destroyed.svc == Initial;
  }

  /** The dispatch as written and the corrected one differ only in the base of
      the timer: they broadcast the same, touch the file system the same, and
      leave the same service apart from `elapsedTimeBeforePause`, which they
      share except for a start that arrives while recording. */
  lemma StartDispatchesDifferOnlyInBase(s: Service, action: Option<Action>, fs: FileSys, env: Env)
    ensures var w := OnStartCommandAsWritten(s, action, fs, env);
      var c := OnStartCommand(s, action, fs, env);
      && w.out == c.out && w.fs == c.fs
      && w.svc == c.svc.(elapsedTimeBeforePause := w.svc.elapsedTimeBeforePause)
      && (w.svc.elapsedTimeBeforePause != c.svc.elapsedTimeBeforePause ==>
            action.Some? && action.value.StartAction? && s.isRecording
            && w.svc.elapsedTimeBeforePause == action.value.elapsedBeforePause)
  {
  }

  lemma InitialValid()
    ensures Valid(Initial)
  {
  }

  /** No input breaks the invariant of `Valid`. */
  lemma ApplyPreservesValid(s: Service, input: Input, fs: FileSys, env: Env)
    requires Valid(s)
    ensures Valid(Apply(s, input, fs, env).svc)
  {
    if input.Intent? && input.action.Some? && input.action.value.StartAction? {
      var t := s.(lastActionTimestamp := env.now);
      assert Truthy(Some(RecordingPath(env.filesDir, env.now)));
    }
  }

  // ---------------------------------------------------------------------------
  // The intent's start action while recording (as written)
  // ---------------------------------------------------------------------------

  /** As written, a second start intent while recording moves the base of the
      running timer: ten seconds into a recording begun at zero, a start
      carrying 100 makes the next firing report 111 seconds instead of 11. */
  lemma StartWhileRecordingShiftsTimer()
    ensures
      var s := Service(Some("/r.m4a"), true, false, 0, 0, 10, Some(0), 0);
      var env := Env(10000, 10000, "/files", true, true);
      var w := OnStartCommandAsWritten(s, Some(StartAction(100)), map[], env).svc;
      var c := OnStartCommand(s, Some(StartAction(100)), map[], env).svc;
      && Tick(w, 11000).svc.currentRecordingTime == 111
      && Tick(c, 11000).svc.currentRecordingTime == 11
  {
    var s := Service(Some("/r.m4a"), true, false, 0, 0, 10, Some(0), 0);
    var env := Env(10000, 10000, "/files", true, true);
    var w := OnStartCommandAsWritten(s, Some(StartAction(100)), map[], env).svc;
    assert w.elapsedTimeBeforePause == 100;
    assert TruncDiv(11000 - 0, TickMs) == 11;
  }

  // ---------------------------------------------------------------------------
  // formatTime
  // ---------------------------------------------------------------------------

  /** `%02d`: at least two characters, zero-padded. */
  function Pad2(n: int): string {
    if 0 <= n < 10 then "0" + NatToString(n) else IntToString(n)
  }

  /** `formatTime(seconds)`: `"%02d:%02d"` of the truncated minutes and seconds. */
  function FormatTime(seconds: int): (t: string)
    ensures seconds >= 0 ==> |t| >= 5 && t[|t| - 3] == ':'
  {
    var mins := TruncDiv(seconds, 60);
    var secs := TruncRem(seconds, 60);
    Pad2OfSmall(secs);
    Pad2(mins) + ":" + Pad2(secs)
  }

  /** Reads `"mm:ss"` (any number of minute digits, two second digits). */
  function ClockValue(t: string): Option<int> {
    if |t| >= 4 && t[|t| - 3] == ':' && AllRadixDigits(t[..|t| - 3], 10) && AllRadixDigits(t[|t| - 2..], 10)
    then Some(ValueIn(t[..|t| - 3], 10) * 60 + ValueIn(t[|t| - 2..], 10))
    else None
  }

  lemma Pad2OfSmall(n: int)
    ensures 0 <= n < 100 ==> |Pad2(n)| == 2 && AllRadixDigits(Pad2(n), 10) && ValueIn(Pad2(n), 10) == n
  {
    if 0 <= n < 10 {
      var p := Pad2(n);
      assert p[..1] == "0";
      NatToStringRoundTrip(n);
    } else if 10 <= n < 100 {
      NatToStringRoundTrip(n);
      assert NatToString(n) == NatToString(n / 10) + [DigitChar(n % 10)];
    }
  }

  /** The notification's clock reads back to the seconds it was made from. */
  lemma FormatTimeRoundTrip(seconds: nat)
    ensures ClockValue(FormatTime(seconds)) == Some(seconds)
  {
    var mins := TruncDiv(seconds, 60);
    var secs := TruncRem(seconds, 60);
    var a, b := Pad2(mins), Pad2(secs);
    var t := a + ":" + b;
    Pad2OfSmall(secs);
    assert a == IntToString(mins) || mins < 10;
    assert AllRadixDigits(a, 10);
    assert t[..|t| - 3] == a;
    assert t[|t| - 2..] == b;
    if mins < 10 {
      Pad2OfSmall(mins);
    } else {
      NatToStringRoundTrip(mins);
    }
  }
}
