/**
  The native bridge (`AudioRecorderModule`): a second copy of the recording
  flags, kept up to date from the engine's broadcasts, guarding the commands
  the JavaScript side issues, and turning broadcasts into events for the
  JavaScript side. Events are values with the delay after which they are
  emitted; a broadcast is handled against an abstract file system.
 */
module Bridge {
  import opened Common
  import Engine

  /** The bridge's cached copy of the engine's state. */
  datatype Mirror = Mirror(
    isRecording: bool,
    isPaused: bool,
    currentOutputFile: Option<string>,
    currentRecordingTime: int)

  const Initial: Mirror := Mirror(false, false, None, 0)

  /** The parameters of an `onRecordingStatusChange` event. */
  datatype Snapshot = Snapshot(isRecording: bool, isPaused: bool, outputFile: Option<string>, currentTime: int)

  /** The snapshot announcing a reset: idle, no time, no file. */
  const ResetSnapshot: Snapshot := Snapshot(false, false, None, 0)

  /** The events the bridge emits to the JavaScript side. */
  datatype JsEvent =
    | StatusChange(snapshot: Snapshot)
    | TimeUpdateEvent(currentTime: int, file: Option<string>)
    | RecordingComplete(outputFile: string, duration: int)
    | RecordingErrorEvent(error: string)

  /** An event and the delay, in milliseconds, after which it is emitted. */
  datatype Emission = Emission(delayMs: nat, event: JsEvent)

  /** The bridge's state after a broadcast, and what it emitted. */
  datatype Reception = Reception(mirror: Mirror, out: seq<Emission>)

  /** The reply to a command's promise. */
  datatype Reply = Resolved | Rejected(code: string, message: string)

  /** A command's effect: the mirror, the reply, and what reached the engine. */
  datatype Command = Command(mirror: Mirror, reply: Reply, sent: Option<Engine.Input>)

  /** `"file://" + p`, the unconditional prefixing of the broadcast handlers. */
  function Url(p: string): (u: string)
    ensures HasFileScheme(u) && StripFileScheme(u) == p
  {
    assert (FileScheme + p)[..|FileScheme|] == FileScheme;
    FileScheme + p
  }

  function UrlOf(o: Option<string>): (u: Option<string>)
    ensures u.Some? <==> o.Some?
  {
    match o
    case None => None
    case Some(p) => Some(Url(p))
  }

  /** The status snapshot of the mirror as the broadcast handlers send it. */
  function SnapshotOf(m: Mirror): Snapshot {
    Snapshot(m.isRecording, m.isPaused, UrlOf(m.currentOutputFile), m.currentRecordingTime)
  }

  /** The emissions of one status snapshot: once now and, when a flag changed,
      again after 100 and 300 milliseconds. */
  function StatusBurst(snap: Snapshot, flagsChanged: bool): (out: seq<Emission>)
    ensures |out| == (if flagsChanged then 3 else 1)
    ensures forall i :: 0 <= i < |out| ==> out[i].event == StatusChange(snap)
    ensures out[0].delayMs == 0
  {
    var e := StatusChange(snap);
    [Emission(0, e)] + (if flagsChanged then [Emission(100, e), Emission(300, e)] else [])
  }

  // ---------------------------------------------------------------------------
  // Broadcasts
  // ---------------------------------------------------------------------------

  /** `RECORDING_STATUS`: the flags and the time are overwritten, the file only
      by a non-null value; the resulting snapshot is emitted, three times when
      a flag changed. */
  function OnStatus(m: Mirror, isRecording: bool, isPaused: bool, file: Option<string>, time: int): (r: Reception)
    ensures r.mirror.isRecording == isRecording && r.mirror.isPaused == isPaused
    ensures r.mirror.currentRecordingTime == time
    ensures r.mirror.currentOutputFile == (if file.Some? then file else m.currentOutputFile)
    ensures (|r.out| > 1) <==> (m.isRecording != isRecording || m.isPaused != isPaused)
    ensures forall i :: 0 <= i < |r.out| ==> r.out[i].event == StatusChange(SnapshotOf(r.mirror))
  {
    var changed := m.isRecording != isRecording || m.isPaused != isPaused;
    var m' := Mirror(isRecording, isPaused, if file.Some? then file else m.currentOutputFile, time);
    Reception(m', StatusBurst(SnapshotOf(m'), changed))
  }

  /** `RECORDING_COMPLETED`: both flags drop; the completion is announced only
      for a named file that exists with content, and otherwise an error is. */
  function OnCompleted(m: Mirror, file: Option<string>, duration: int, fs: FileSys): (r: Reception)
    ensures !r.mirror.isRecording && !r.mirror.isPaused
    ensures r.mirror.currentRecordingTime == m.currentRecordingTime
    ensures file.Some? && HasContent(fs, file.value) ==>
      && r.mirror.currentOutputFile == file
      && r.out == [Emission(0, RecordingComplete(Url(file.value), duration)),
                   Emission(0, StatusChange(Snapshot(false, false, Some(Url(file.value)), duration)))]
    ensures !(file.Some? && HasContent(fs, file.value)) ==>
      && r.mirror.currentOutputFile == m.currentOutputFile
      && |r.out| == 1 && r.out[0].event.RecordingErrorEvent?
  {
    var m1 := m.(isRecording := false, isPaused := false);
    match file
    case None => Reception(m1, [Emission(0, RecordingErrorEvent("File path is null"))])
    case Some(p) =>
      if HasContent(fs, p) then
        var url := Url(p);
        Reception(m1.(currentOutputFile := Some(p)),
                  [Emission(0, RecordingComplete(url, duration)),
                   Emission(0, StatusChange(Snapshot(false, false, Some(url), duration)))])
      else
        Reception(m1, [Emission(0, RecordingErrorEvent("File doesn't exist or is empty"))])
  }

  /** `recordingStatusReceiver.onReceive`. */
  function Receive(m: Mirror, b: Engine.Broadcast, fs: FileSys): (r: Reception)
    ensures b.OutputFileSet? && b.file.None? ==> r == Reception(m, [])
    ensures b.OutputFileSet? && b.file.Some? ==>
      r.mirror == m.(currentOutputFile := b.file) && r.out == [Emission(0, StatusChange(SnapshotOf(r.mirror)))]
    ensures b.RecordingStatus? ==> r == OnStatus(m, b.isRecording, b.isPaused, b.file, b.currentTime)
    ensures b.RecordingCompleted? ==> r == OnCompleted(m, b.file, b.duration, fs)
    ensures b.TimeUpdate? ==>
      && r.mirror == m.(currentRecordingTime := b.currentTime,
                        currentOutputFile := if Truthy(b.file) then b.file else m.currentOutputFile)
      && r.out == [Emission(0, TimeUpdateEvent(b.currentTime, UrlOf(r.mirror.currentOutputFile)))]
    ensures b.RecordingError? ==>
      && r.mirror == m.(isRecording := false, isPaused := false)
      && |r.out| == 2 && r.out[0].event.RecordingErrorEvent?
      && r.out[1].event == StatusChange(SnapshotOf(r.mirror))
  {
    match b
    case OutputFileSet(f) =>
      if f.None? then Reception(m, [])
      else
        var m' := m.(currentOutputFile := f);
        Reception(m', [Emission(0, StatusChange(SnapshotOf(m')))])
    case RecordingStatus(rec, paused, f, t) => OnStatus(m, rec, paused, f, t)
    case TimeUpdate(t, f) =>
      var m' := m.(currentRecordingTime := t,
                   currentOutputFile := if Truthy(f) then f else m.currentOutputFile);
      Reception(m', [Emission(0, TimeUpdateEvent(t, UrlOf(m'.currentOutputFile)))])
    case RecordingCompleted(f, _, d) => OnCompleted(m, f, d, fs)
    case RecordingError(e) =>
      var msg := if e.Some? then e.value else "Unknown error";
      var m' := m.(isRecording := false, isPaused := false);
      Reception(m', [Emission(0, RecordingErrorEvent(msg)), Emission(0, StatusChange(SnapshotOf(m')))])
  }

  /** Receiving a broadcast a second time leaves the mirror as the first time
      left it, and a repeated status broadcast is emitted once, with no
      re-sends. */
  lemma ReceiveIdempotent(m: Mirror, b: Engine.Broadcast, fs: FileSys)
    ensures Receive(Receive(m, b, fs).mirror, b, fs).mirror == Receive(m, b, fs).mirror
    ensures b.RecordingStatus? ==>
      Receive(Receive(m, b, fs).mirror, b, fs).out == [Receive(m, b, fs).out[0]]
  {
  }

  // ---------------------------------------------------------------------------
  // Commands
  // ---------------------------------------------------------------------------

  /** `startRecording`: rejected without the microphone permission; otherwise
      the start intent goes out and the mirror becomes recording and not
      paused. `launchError` is the exception starting the service threw, if any. */
  function StartRecording(m: Mirror, hasPermission: bool, elapsedTimeBeforePause: int, launchError: Option<string>): (r: Command)
    ensures !hasPermission ==> r == Command(m, Rejected("PERMISSION_DENIED", "Permissão para gravar áudio não concedida"), None)
    ensures hasPermission && launchError.Some? ==> r.mirror == m && r.reply.Rejected? && r.sent == None
    ensures hasPermission && launchError.None? ==>
      && r.mirror == m.(isRecording := true, isPaused := false) && r.reply == Resolved
      && r.sent == Some(Engine.Intent(Some(Engine.StartAction(elapsedTimeBeforePause))))
  {
    if !hasPermission then
      Command(m, Rejected("PERMISSION_DENIED", "Permissão para gravar áudio não concedida"), None)
    else if launchError.Some? then
      Command(m, Rejected("START_RECORDING_ERROR", launchError.value), None)
    else
      Command(m.(isRecording := true, isPaused := false), Resolved,
              Some(Engine.Intent(Some(Engine.StartAction(elapsedTimeBeforePause)))))
  }

  /** `pauseRecording`: only a recording, unpaused mirror may pause, and then
      only `isPaused` changes. */
  function PauseRecording(m: Mirror, launchError: Option<string>): (r: Command)
    ensures !m.isRecording || m.isPaused ==>
      r == Command(m, Rejected("INVALID_STATE", "Não há gravação ativa para pausar"), None)
    ensures m.isRecording && !m.isPaused && launchError.Some? ==> r.mirror == m && r.reply.Rejected?
    ensures r.reply == Resolved <==> m.isRecording && !m.isPaused && launchError.None?
    ensures r.reply == Resolved ==>
      r.mirror == m.(isPaused := true) && r.sent == Some(Engine.Intent(Some(Engine.PauseAction)))
  {
    if !m.isRecording || m.isPaused then
      Command(m, Rejected("INVALID_STATE", "Não há gravação ativa para pausar"), None)
    else if launchError.Some? then
      Command(m, Rejected("PAUSE_RECORDING_ERROR", launchError.value), None)
    else
      Command(m.(isPaused := true), Resolved, Some(Engine.Intent(Some(Engine.PauseAction))))
  }

  /** `resumeRecording`: only a recording, paused mirror may resume, and then
      only `isPaused` changes. */
  function ResumeRecording(m: Mirror, launchError: Option<string>): (r: Command)
    ensures !m.isRecording || !m.isPaused ==>
      r == Command(m, Rejected("INVALID_STATE", "Não há gravação pausada para retomar"), None)
    ensures r.reply == Resolved <==> m.isRecording && m.isPaused && launchError.None?
    ensures r.reply == Resolved ==>
      r.mirror == m.(isPaused := false) && r.sent == Some(Engine.Intent(Some(Engine.ResumeAction)))
    ensures r.reply != Resolved ==> r.mirror == m
  {
    if !m.isRecording || !m.isPaused then
      Command(m, Rejected("INVALID_STATE", "Não há gravação pausada para retomar"), None)
    else if launchError.Some? then
      Command(m, Rejected("RESUME_RECORDING_ERROR", launchError.value), None)
    else
      Command(m.(isPaused := false), Resolved, Some(Engine.Intent(Some(Engine.ResumeAction))))
  }

  /** `stopRecording`: rejected when not recording; it never changes the
      mirror itself, which learns about the stop from the engine's broadcasts. */
  function StopRecording(m: Mirror, launchError: Option<string>): (r: Command)
    ensures r.mirror == m
    ensures !m.isRecording ==> r.reply == Rejected("INVALID_STATE", "Não há gravação ativa para parar") && r.sent == None
    ensures r.reply == Resolved <==> m.isRecording && launchError.None?
    ensures r.reply == Resolved ==> r.sent == Some(Engine.Intent(Some(Engine.StopAction)))
  {
    if !m.isRecording then
      Command(m, Rejected("INVALID_STATE", "Não há gravação ativa para parar"), None)
    else if launchError.Some? then
      Command(m, Rejected("STOP_RECORDING_ERROR", launchError.value), None)
    else
      Command(m, Resolved, Some(Engine.Intent(Some(Engine.StopAction))))
  }

  /** `forceStopService`: the service is stopped, its notification cancelled
      and the reset snapshot emitted. `stopError` and `cancelError` are the
      exceptions `stopService` and the notification cancel threw, if any:
      either one rejects with `FORCE_STOP_ERROR` and emits nothing, although a
      stop that went through before the cancel failed still destroys the
      service. The mirror itself is never touched; the engine's own
      broadcasts on destruction bring it down. */
  function ForceStopService(m: Mirror, stopError: Option<string>, cancelError: Option<string>): (r: (Command, seq<Emission>))
    ensures r.0.mirror == m
    ensures r.0.sent == (if stopError.None? then Some(Engine.Destroyed) else None)
    ensures r.0.reply == Resolved <==> stopError.None? && cancelError.None?
    ensures r.0.reply == Resolved ==> r.1 == [Emission(0, StatusChange(ResetSnapshot))]
    ensures r.0.reply != Resolved ==> r.0.reply.code == "FORCE_STOP_ERROR" && r.1 == []
  {
    if stopError.Some? then
      (Command(m, Rejected("FORCE_STOP_ERROR", stopError.value), None), [])
    else if cancelError.Some? then
      (Command(m, Rejected("FORCE_STOP_ERROR", cancelError.value), Some(Engine.Destroyed)), [])
    else
      (Command(m, Resolved, Some(Engine.Destroyed)), [Emission(0, StatusChange(ResetSnapshot))])
  }

  /** `getStatus`: the mirror as it is, the file path without a scheme. */
  function GetStatus(m: Mirror): (snap: Snapshot)
    ensures snap.isRecording == m.isRecording && snap.isPaused == m.isPaused
    ensures snap.outputFile == m.currentOutputFile && snap.currentTime == m.currentRecordingTime
  {
    Snapshot(m.isRecording, m.isPaused, m.currentOutputFile, m.currentRecordingTime)
  }

  /** `onHostResume` and `syncStatus`: the cached snapshot is pushed first and
      the engine is then asked to broadcast its true status. */
  function OnHostResume(m: Mirror): (r: (seq<Emission>, Engine.Input))
    ensures r.0 == [Emission(0, StatusChange(GetStatus(m)))]
    ensures r.1 == Engine.StatusRequested
  {
    ([Emission(0, StatusChange(GetStatus(m)))], Engine.StatusRequested)
  }

  /** `getOutputFilePath`: null unless the cached file exists with content;
      otherwise the path with `file://` added when it is absent. */
  function GetOutputFilePath(m: Mirror, fs: FileSys): (r: Option<string>)
    ensures r.Some? <==> m.currentOutputFile.Some? && HasContent(fs, m.currentOutputFile.value)
    ensures r.Some? ==> HasFileScheme(r.value) && ToFileUri(r.value) == r.value
    ensures r.Some? && !HasFileScheme(m.currentOutputFile.value) ==>
      StripFileScheme(r.value) == m.currentOutputFile.value
  {
    match m.currentOutputFile
    case None => None
    case Some(p) =>
      if HasContent(fs, p) then
        StripToFileUriWhenPlain(p);
        Some(ToFileUri(p))
      else None
  }

  lemma StripToFileUriWhenPlain(p: string)
    ensures !HasFileScheme(p) ==> StripFileScheme(ToFileUri(p)) == p
  {
    if !HasFileScheme(p) { StripToFileUri(p); }
  }
}
