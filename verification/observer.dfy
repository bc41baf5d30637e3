/**
  The JavaScript observer (`AudioRecorderService` in BackgroundAudioRecorder.js):
  a third copy of the recording state, fed by the bridge's events, with its
  own command guards in front of the native module and three listener
  registries. Calls into the native module are outcomes handed in; listener
  callbacks are values that say whether they throw, and their invocations
  are values. An exception a listener throws out of an event handler ends
  that handler's loop and is not followed further: the next event is
  delivered as usual.
 */
module Observer {
  import opened Common
  import Bridge

  /** A registered callback: its identity, and whether calling it throws. A
      listener that throws is taken to throw on every call. */
  datatype Listener = Listener(id: nat, throws: bool)

  datatype Channel = TimeChannel | StatusChannel | CompleteChannel

  datatype Recorder = Recorder(
    isRecording: bool,
    isPaused: bool,
    recordingTime: int,
    outputFile: Option<string>,
    timeListeners: seq<Listener>,
    statusListeners: seq<Listener>,
    completeListeners: seq<Listener>)

  const Initial: Recorder := Recorder(false, false, 0, None, [], [], [])

  /** What a listener is called with. */
  datatype Notice =
    | StatusNotice(isRecording: bool, isPaused: bool, currentTime: int, outputFile: Option<string>, error: Option<string>)
    | TimeNotice(time: int)
    | CompleteNotice(completedFile: string, duration: int)

  /** One invocation of one listener. */
  datatype Notification = Notification(listener: Listener, notice: Notice)

  /** The state after an event, and the listener invocations it caused. */
  datatype Handled = Handled(rec: Recorder, notified: seq<Notification>)

  /** How a call into the native module settles. */
  datatype NativeResult = NativeOk | NativeRejected(message: string)

  /** How one of the service's async methods settles. */
  datatype Outcome = Returned(value: bool) | Threw(message: string)

  datatype Call = Call(rec: Recorder, outcome: Outcome, notified: seq<Notification>)

  const NoNativeModule: string := "Módulo nativo BackgroundAudioRecorder não disponível"
  const AndroidOnly: string := "Gravação em segundo plano disponível apenas para Android"
  const UnknownRecordingError: string := "Erro desconhecido na gravação"

  function ListenersOf(s: Recorder, ch: Channel): seq<Listener> {
    match ch
    case TimeChannel => s.timeListeners
    case StatusChannel => s.statusListeners
    case CompleteChannel => s.completeListeners
  }

  /** Some listener in `ls` throws when called. */
  predicate AnyThrows(ls: seq<Listener>) {
    exists i :: 0 <= i < |ls| && ls[i].throws
  }

  /** How many listeners a `forEach` with no `try` reaches: all of them when
      none throws, otherwise those up to and including the first that does. */
  function Reach(ls: seq<Listener>): (k: nat)
    ensures k <= |ls|
    ensures !AnyThrows(ls) ==> k == |ls|
    ensures AnyThrows(ls) ==> 0 < k && ls[k - 1].throws && !AnyThrows(ls[..k - 1])
    decreases |ls|
  {
    if ls == [] then 0
    else if ls[0].throws then
      assert ls[..0] == [];
      1
    else
      var k := Reach(ls[1..]);
      assert AnyThrows(ls) ==> AnyThrows(ls[1..]) by {
        if AnyThrows(ls) {
          var i :| 0 <= i < |ls| && ls[i].throws;
          assert i > 0 && ls[1..][i - 1].throws;
        }
      }
      assert AnyThrows(ls) ==> !AnyThrows(ls[..k]) by {
        if AnyThrows(ls) {
          forall i | 0 <= i < k
            ensures !ls[..k][i].throws
          {
            if i > 0 { assert ls[..k][i] == ls[1..][..k - 1][i - 1]; }
          }
        }
      }
      1 + k
  }

  /** `listeners.forEach(l => l(notice))` with no `try` around the call: the
      listeners are called in registration order until one throws, and that
      exception ends the loop. */
  function NotifyAll(ls: seq<Listener>, n: Notice): (r: seq<Notification>)
    ensures |r| == Reach(ls)
    ensures forall i :: 0 <= i < |r| ==> r[i] == Notification(ls[i], n)
  {
    seq(Reach(ls), i requires 0 <= i < Reach(ls) => Notification(ls[i], n))
  }

  /** `listeners.forEach(l => { try { l(notice) } catch {} })`: every listener
      is called, in registration order, whether or not one throws. */
  function NotifyEach(ls: seq<Listener>, n: Notice): (r: seq<Notification>)
    ensures |r| == |ls|
    ensures forall i :: 0 <= i < |ls| ==> r[i] == Notification(ls[i], n)
  {
    seq(|ls|, i requires 0 <= i < |ls| => Notification(ls[i], n))
  }

  // ---------------------------------------------------------------------------
  // Event handlers
  // ---------------------------------------------------------------------------

  /** `_handleRecordingStatusChange`: all four fields take the snapshot's
      values and the status listeners hear them, up to the first that
      throws. */
  function OnStatusChange(s: Recorder, snap: Bridge.Snapshot): (r: Handled)
    ensures r.rec == s.(isRecording := snap.isRecording, isPaused := snap.isPaused,
                        recordingTime := snap.currentTime, outputFile := snap.outputFile)
    ensures r.notified == NotifyAll(s.statusListeners,
      StatusNotice(snap.isRecording, snap.isPaused, snap.currentTime, snap.outputFile, None))
  {
    var t := s.(isRecording := snap.isRecording, isPaused := snap.isPaused,
                recordingTime := snap.currentTime, outputFile := snap.outputFile);
    Handled(t, NotifyAll(t.statusListeners,
      StatusNotice(t.isRecording, t.isPaused, t.recordingTime, t.outputFile, None)))
  }

  /** `_handleRecordingTimeUpdate`, as written: the time always changes, the
      file only for a truthy update that differs from the current one, and
      every time listener is called, each inside its own `try`. */
  function OnTimeUpdate(s: Recorder, time: int, file: Option<string>): (r: Handled)
    ensures r.rec.recordingTime == time
    ensures r.rec.outputFile == (if Truthy(file) then file else s.outputFile)
    ensures r.rec == s.(recordingTime := time, outputFile := r.rec.outputFile)
    ensures r.notified == NotifyEach(s.timeListeners, TimeNotice(time))
  {
    var replace := Truthy(file) && (!Truthy(s.outputFile) || s.outputFile != file);
    var t := s.(recordingTime := time, outputFile := if replace then file else s.outputFile);
    Handled(t, NotifyEach(t.timeListeners, TimeNotice(time)))
  }

  /** `_handleRecordingComplete`: the flags drop, the file and time stay, and
      the completion listeners hear the event's file and duration, up to the
      first that throws. */
  function OnComplete(s: Recorder, file: string, duration: int): (r: Handled)
    ensures r.rec == s.(isRecording := false, isPaused := false)
    ensures r.notified == NotifyAll(s.completeListeners, CompleteNotice(file, duration))
  {
    Handled(s.(isRecording := false, isPaused := false),
            NotifyAll(s.completeListeners, CompleteNotice(file, duration)))
  }

  /** `_handleRecordingError`: the flags drop (the file and time are kept),
      and the status listeners hear a reset with the error's message, up to
      the first that throws. */
  function OnError(s: Recorder, error: Option<string>): (r: Handled)
    ensures r.rec == s.(isRecording := false, isPaused := false)
    ensures r.notified == NotifyAll(s.statusListeners,
      StatusNotice(false, false, 0, None, Some(if Truthy(error) then error.value else UnknownRecordingError)))
  {
    var msg := if Truthy(error) then error.value else UnknownRecordingError;
    Handled(s.(isRecording := false, isPaused := false),
            NotifyAll(s.statusListeners, StatusNotice(false, false, 0, None, Some(msg))))
  }

  /** The native event emitter dispatching one bridge event to its handler. */
  function Deliver(s: Recorder, e: Bridge.JsEvent): (r: Handled)
    ensures r.rec.timeListeners == s.timeListeners && r.rec.statusListeners == s.statusListeners
    ensures r.rec.completeListeners == s.completeListeners
  {
    match e
    case StatusChange(snap) => OnStatusChange(s, snap)
    case TimeUpdateEvent(t, f) => OnTimeUpdate(s, t, f)
    case RecordingComplete(f, d) => OnComplete(s, f, d)
    case RecordingErrorEvent(msg) => OnError(s, Some(msg))
  }

  /** A snapshot delivered any number of times leaves the state the first
      delivery left, and each delivery tells the listeners the same thing. */
  lemma StatusChangeIdempotent(s: Recorder, snap: Bridge.Snapshot)
    ensures OnStatusChange(OnStatusChange(s, snap).rec, snap).rec == OnStatusChange(s, snap).rec
    ensures OnStatusChange(OnStatusChange(s, snap).rec, snap).notified == OnStatusChange(s, snap).notified
  {
  }

  /** The time-update condition `update.outputFile && (!this._outputFile ||
      this._outputFile !== update.outputFile)` is the same as replacing the
      file whenever the update carries a truthy one. */
  lemma TimeUpdateReplacesWhenTruthy(s: Recorder, time: int, file: Option<string>)
    ensures Truthy(file) ==> OnTimeUpdate(s, time, file).rec.outputFile == file
    ensures !Truthy(file) ==> OnTimeUpdate(s, time, file).rec.outputFile == s.outputFile
  {
  }

  // ---------------------------------------------------------------------------
  // Commands
  // ---------------------------------------------------------------------------

  /** `startRecording`: Android only, native module required; the flags are
      set only after the native call resolves. */
  function StartRecording(s: Recorder, isAndroid: bool, nativeAvailable: bool, native: NativeResult): (r: Call)
    ensures r.outcome == Returned(true) <==> isAndroid && nativeAvailable && native.NativeOk?
    ensures r.outcome == Returned(true) ==> r.rec == s.(isRecording := true, isPaused := false)
    ensures r.outcome.Threw? ==> r.rec == s
    ensures r.notified == []
  {
    if !isAndroid then Call(s, Threw(AndroidOnly), [])
    else if !nativeAvailable then Call(s, Threw(NoNativeModule), [])
    else match native
      case NativeRejected(msg) => Call(s, Threw(msg), [])
      case NativeOk => Call(s.(isRecording := true, isPaused := false), Returned(true), [])
  }

  /** `pauseRecording`: throws unless recording and not paused; `_isPaused`
      is set only after the native call resolves. */
  function PauseRecording(s: Recorder, nativeAvailable: bool, native: NativeResult): (r: Call)
    ensures nativeAvailable && (!s.isRecording || s.isPaused) ==>
      r == Call(s, Threw("Nenhuma gravação ativa para pausar"), [])
    ensures r.outcome == Returned(true) <==> nativeAvailable && s.isRecording && !s.isPaused && native.NativeOk?
    ensures r.outcome == Returned(true) ==> r.rec == s.(isPaused := true)
    ensures r.outcome.Threw? ==> r.rec == s
  {
    if !nativeAvailable then Call(s, Threw(NoNativeModule), [])
    else if !s.isRecording || s.isPaused then Call(s, Threw("Nenhuma gravação ativa para pausar"), [])
    else match native
      case NativeRejected(msg) => Call(s, Threw(msg), [])
      case NativeOk => Call(s.(isPaused := true), Returned(true), [])
  }

  /** `resumeRecording`: throws unless recording and paused. */
  function ResumeRecording(s: Recorder, nativeAvailable: bool, native: NativeResult): (r: Call)
    ensures nativeAvailable && (!s.isRecording || !s.isPaused) ==>
      r == Call(s, Threw("Nenhuma gravação pausada para retomar"), [])
    ensures r.outcome == Returned(true) <==> nativeAvailable && s.isRecording && s.isPaused && native.NativeOk?
    ensures r.outcome == Returned(true) ==> r.rec == s.(isPaused := false)
    ensures r.outcome.Threw? ==> r.rec == s
  {
    if !nativeAvailable then Call(s, Threw(NoNativeModule), [])
    else if !s.isRecording || !s.isPaused then Call(s, Threw("Nenhuma gravação pausada para retomar"), [])
    else match native
      case NativeRejected(msg) => Call(s, Threw(msg), [])
      case NativeOk => Call(s.(isPaused := false), Returned(true), [])
  }

  /** `stopRecording`: throws when not recording; it never changes the state,
      which learns about the stop from the events that follow. */
  function StopRecording(s: Recorder, nativeAvailable: bool, native: NativeResult): (r: Call)
    ensures r.rec == s && r.notified == []
    ensures nativeAvailable && !s.isRecording ==> r.outcome == Threw("Nenhuma gravação ativa para parar")
    ensures r.outcome == Returned(true) <==> nativeAvailable && s.isRecording && native.NativeOk?
  {
    if !nativeAvailable then Call(s, Threw(NoNativeModule), [])
    else if !s.isRecording then Call(s, Threw("Nenhuma gravação ativa para parar"), [])
    else match native
      case NativeRejected(msg) => Call(s, Threw(msg), [])
      case NativeOk => Call(s, Returned(true), [])
  }

  /** `resetState`: after a successful force stop of the native service the
      flags drop, the time is zero, the file is null, and the status
      listeners hear that reset. It never throws: a status listener that
      throws makes it return false, after the reset took effect. */
  function ResetState(s: Recorder, nativeAvailable: bool, forceStop: NativeResult): (r: Call)
    ensures r.outcome == Returned(nativeAvailable && forceStop.NativeOk? && !AnyThrows(s.statusListeners))
    ensures nativeAvailable && forceStop.NativeOk? ==>
      && r.rec == s.(isRecording := false, isPaused := false, recordingTime := 0, outputFile := None)
      && r.notified == NotifyAll(s.statusListeners, StatusNotice(false, false, 0, None, None))
    ensures !(nativeAvailable && forceStop.NativeOk?) ==> r.rec == s && r.notified == []
  {
    if !nativeAvailable || forceStop.NativeRejected? then Call(s, Returned(false), [])
    else
      var t := s.(isRecording := false, isPaused := false, recordingTime := 0, outputFile := None);
      Call(t, Returned(!AnyThrows(t.statusListeners)),
           NotifyAll(t.statusListeners, StatusNotice(false, false, 0, None, None)))
  }

  /** The reset `resetState` applies is the one the bridge's reset snapshot
      announces: the state and the status notifications are those of
      delivering that snapshot. */
  lemma ResetMatchesResetSnapshot(s: Recorder)
    ensures ResetState(s, true, NativeOk).rec == OnStatusChange(s, Bridge.ResetSnapshot).rec
    ensures ResetState(s, true, NativeOk).notified == OnStatusChange(s, Bridge.ResetSnapshot).notified
  {
  }

  /** `forceStopService`: a native force stop, then a call of `resetState`
      that is not awaited. The call reports success as soon as the first stop
      resolves, before the reset has run, so the state is still the one it
      found; `r.1` says a reset is pending. That reset is
      `ResetState(s', true, second)` for whatever state `s'` the observer is
      in when its own native call settles, and it never throws. */
  function ForceStopService(s: Recorder, nativeAvailable: bool, first: NativeResult): (r: (Call, bool))
    ensures r.0.rec == s && r.0.notified == []
    ensures !nativeAvailable ==> r.0.outcome == Threw(NoNativeModule)
    ensures nativeAvailable && first.NativeRejected? ==> r.0.outcome == Threw(first.message)
    ensures r.0.outcome == Returned(true) <==> nativeAvailable && first.NativeOk?
    ensures r.1 <==> r.0.outcome == Returned(true)
  {
    if !nativeAvailable then (Call(s, Threw(NoNativeModule), []), false)
    else match first
      case NativeRejected(msg) => (Call(s, Threw(msg), []), false)
      case NativeOk => (Call(s, Returned(true), []), true)
  }

  /** `_syncStatus`: the four fields are overwritten from the native
      `getStatus`, with no listener told. */
  function SyncStatus(s: Recorder, status: Bridge.Snapshot): (r: Recorder)
    ensures r == OnStatusChange(s, status).rec
  {
    s.(isRecording := status.isRecording, isPaused := status.isPaused,
       recordingTime := status.currentTime, outputFile := status.outputFile)
  }

  /** `getOutputFilePath`: null without a (truthy) file, otherwise the file
      with `file://` added when absent. */
  function GetOutputFilePath(s: Recorder): (r: Option<string>)
    ensures r.None? <==> !Truthy(s.outputFile)
    ensures r.Some? ==> HasFileScheme(r.value) && ToFileUri(r.value) == r.value
    ensures r.Some? && HasFileScheme(s.outputFile.value) ==> r == s.outputFile
  {
    if !Truthy(s.outputFile) then None else Some(ToFileUri(s.outputFile.value))
  }

  /** Storing the path the observer hands out and asking again changes nothing. */
  lemma GetOutputFilePathStable(s: Recorder)
    requires GetOutputFilePath(s).Some?
    ensures GetOutputFilePath(s.(outputFile := GetOutputFilePath(s))) == GetOutputFilePath(s)
  {
    ToFileUriIdempotent(s.outputFile.value);
  }

  // ---------------------------------------------------------------------------
  // Listener registries
  // ---------------------------------------------------------------------------

  /** `list.filter(l => l !== listener)`. */
  function Without(xs: seq<Listener>, l: Listener): (r: seq<Listener>)
    ensures |r| <= |xs|
    ensures forall x :: x in r <==> x in xs && x != l
  {
    if xs == [] then []
    else (if xs[0] == l then [] else [xs[0]]) + Without(xs[1..], l)
  }

  /** Filtering distributes over concatenation, so the listeners that stay keep
      their relative order. */
  lemma {:induction false} WithoutAppend(a: seq<Listener>, b: seq<Listener>, l: Listener)
    ensures Without(a + b, l) == Without(a, l) + Without(b, l)
    decreases |a|
  {
    if a == [] {
      assert a + b == b;
    } else {
      assert (a + b)[0] == a[0];
      assert (a + b)[1..] == a[1..] + b;
      WithoutAppend(a[1..], b, l);
    }
  }

  /** Removing a listener that is not registered changes nothing. */
  lemma {:induction false} WithoutAbsent(xs: seq<Listener>, l: Listener)
    requires l !in xs
    ensures Without(xs, l) == xs
    decreases |xs|
  {
    if xs != [] {
      WithoutAbsent(xs[1..], l);
      assert [xs[0]] + xs[1..] == xs;
    }
  }

  /** `addXListener(l)`: the listener is appended; the returned unsubscribe
      function is `RemoveListener(_, ch, l)`. */
  function AddListener(s: Recorder, ch: Channel, l: Listener): (r: Recorder)
    ensures ListenersOf(r, ch) == ListenersOf(s, ch) + [l]
    ensures forall c :: c != ch ==> ListenersOf(r, c) == ListenersOf(s, c)
    ensures r.isRecording == s.isRecording && r.isPaused == s.isPaused
    ensures r.recordingTime == s.recordingTime && r.outputFile == s.outputFile
  {
    match ch
    case TimeChannel => s.(timeListeners := s.timeListeners + [l])
    case StatusChannel => s.(statusListeners := s.statusListeners + [l])
    case CompleteChannel => s.(completeListeners := s.completeListeners + [l])
  }

  /** The unsubscribe function: every registration of `l` on that channel goes,
      every other listener and channel stays. */
  function RemoveListener(s: Recorder, ch: Channel, l: Listener): (r: Recorder)
    ensures l !in ListenersOf(r, ch)
    ensures forall x :: x != l ==> (x in ListenersOf(r, ch) <==> x in ListenersOf(s, ch))
    ensures forall c :: c != ch ==> ListenersOf(r, c) == ListenersOf(s, c)
    ensures r.isRecording == s.isRecording && r.isPaused == s.isPaused
    ensures r.recordingTime == s.recordingTime && r.outputFile == s.outputFile
  {
    match ch
    case TimeChannel => s.(timeListeners := Without(s.timeListeners, l))
    case StatusChannel => s.(statusListeners := Without(s.statusListeners, l))
    case CompleteChannel => s.(completeListeners := Without(s.completeListeners, l))
  }

  /** Subscribing a new listener and calling its unsubscribe function restores
      the registry exactly. */
  lemma AddThenRemove(s: Recorder, ch: Channel, l: Listener)
    requires l !in ListenersOf(s, ch)
    ensures RemoveListener(AddListener(s, ch, l), ch, l) == s
  {
    var xs := ListenersOf(s, ch);
    WithoutAppend(xs, [l], l);
    WithoutAbsent(xs, l);
    assert Without([l], l) == [];
  }
}
