/**
  The three copies of the recording state wired together: the engine's
  broadcasts folded into the bridge's mirror, and the bridge's events folded
  into the JavaScript observer. Emissions are delivered in the order they are
  listed; the interleaving of delayed re-sends with later events is not
  modelled.
 */
module Sync {
  import opened Common
  import Engine
  import Bridge
  import Observer

  // ---------------------------------------------------------------------------
  // Engine to bridge
  // ---------------------------------------------------------------------------

  /** One bridge step: a reception from a mirror and a broadcast. */
  type Step = (Bridge.Mirror, Engine.Broadcast) -> Bridge.Reception

  /** A sequence of broadcasts received in order, one step each. */
  function Fold(m: Bridge.Mirror, bs: seq<Engine.Broadcast>, step: Step): Bridge.Reception
    decreases |bs|
  {
    if bs == [] then Bridge.Reception(m, [])
    else
      var h := step(m, bs[0]);
      var t := Fold(h.mirror, bs[1..], step);
      Bridge.Reception(t.mirror, h.out + t.out)
  }

  /** Folding `a + b` is folding `a`, then `b` from where `a` left off. */
  lemma {:induction false} FoldAppend(m: Bridge.Mirror, a: seq<Engine.Broadcast>, b: seq<Engine.Broadcast>, step: Step)
    ensures Fold(m, a + b, step).mirror == Fold(Fold(m, a, step).mirror, b, step).mirror
    ensures Fold(m, a + b, step).out == Fold(m, a, step).out + Fold(Fold(m, a, step).mirror, b, step).out
    decreases |a|
  {
    if a == [] {
      assert a + b == b;
    } else {
      var h := step(m, a[0]);
      assert (a + b)[0] == a[0];
      assert (a + b)[1..] == a[1..] + b;
      FoldAppend(h.mirror, a[1..], b, step);
      var x := Fold(h.mirror, a[1..], step);
      var y := Fold(x.mirror, b, step);
      assert h.out + (x.out + y.out) == (h.out + x.out) + y.out;
    }
  }

  /** The bridge receiving a sequence of broadcasts in order. */
  function ReceiveAll(m: Bridge.Mirror, bs: seq<Engine.Broadcast>, fs: FileSys): Bridge.Reception
  {
    Fold(m, bs, (x, b) => Bridge.Receive(x, b, fs))
  }

  /** Receiving a non-empty sequence is receiving its first broadcast, then
      the rest. */
  lemma ReceiveAllCons(m: Bridge.Mirror, bs: seq<Engine.Broadcast>, fs: FileSys)
    requires bs != []
    ensures ReceiveAll(m, bs, fs).mirror == ReceiveAll(Bridge.Receive(m, bs[0], fs).mirror, bs[1..], fs).mirror
    ensures ReceiveAll(m, bs, fs).out ==
      Bridge.Receive(m, bs[0], fs).out + ReceiveAll(Bridge.Receive(m, bs[0], fs).mirror, bs[1..], fs).out
  {
  }

  /** Receiving `a + b` is receiving `a`, then `b` from where `a` left off. */
  lemma ReceiveAllAppend(m: Bridge.Mirror, a: seq<Engine.Broadcast>, b: seq<Engine.Broadcast>, fs: FileSys)
    ensures ReceiveAll(m, a + b, fs).mirror == ReceiveAll(ReceiveAll(m, a, fs).mirror, b, fs).mirror
    ensures ReceiveAll(m, a + b, fs).out == ReceiveAll(m, a, fs).out + ReceiveAll(ReceiveAll(m, a, fs).mirror, b, fs).out
  {
    FoldAppend(m, a, b, (x, b) => Bridge.Receive(x, b, fs));
  }

  /** The engine and the bridge agree on the two flags. */
  predicate Agree(s: Engine.Service, m: Bridge.Mirror) {
    s.isRecording == m.isRecording && s.isPaused == m.isPaused
  }

  /** Broadcasts that carry no flags: the output file and the time. */
  predicate FlagFree(b: Engine.Broadcast) {
    b.OutputFileSet? || b.TimeUpdate?
  }

  /** Flag-free broadcasts leave the mirror's flags alone. */
  lemma {:induction false} FlagFreeKeepsFlags(m: Bridge.Mirror, bs: seq<Engine.Broadcast>, fs: FileSys)
    requires forall i :: 0 <= i < |bs| ==> FlagFree(bs[i])
    ensures ReceiveAll(m, bs, fs).mirror.isRecording == m.isRecording
    ensures ReceiveAll(m, bs, fs).mirror.isPaused == m.isPaused
    decreases |bs|
  {
    if bs != [] {
      FlagFreeKeepsFlags(Bridge.Receive(m, bs[0], fs).mirror, bs[1..], fs);
    }
  }

  /** After a sequence ending in a status broadcast, the mirror holds that
      broadcast's flags, whatever came before. */
  lemma LastStatusDecides(m: Bridge.Mirror, bs: seq<Engine.Broadcast>, fs: FileSys)
    requires bs != [] && bs[|bs| - 1].RecordingStatus?
    ensures ReceiveAll(m, bs, fs).mirror.isRecording == bs[|bs| - 1].isRecording
    ensures ReceiveAll(m, bs, fs).mirror.isPaused == bs[|bs| - 1].isPaused
  {
    var n := |bs| - 1;
    assert bs == bs[..n] + [bs[n]];
    ReceiveAllAppend(m, bs[..n], [bs[n]], fs);
    ReceiveAllCons(ReceiveAll(m, bs[..n], fs).mirror, [bs[n]], fs);
  }

  /** Every engine step either keeps its flags and broadcasts none, or ends
      its broadcasts with its own new status. */
  lemma ApplyOutputShape(s: Engine.Service, input: Engine.Input, fs: FileSys, env: Engine.Env)
    requires Engine.Valid(s)
    ensures var r := Engine.Apply(s, input, fs, env);
      || (Agree(r.svc, Bridge.Mirror(s.isRecording, s.isPaused, None, 0))
          && forall i :: 0 <= i < |r.out| ==> FlagFree(r.out[i]))
      || (r.out != [] && r.out[|r.out| - 1] == Engine.StatusOf(r.svc))
  {
    match input
    case Intent(a) =>
      if a.None? {
      } else if env.now - s.lastActionTimestamp < Engine.DebounceMs {
      } else {
        var t := s.(lastActionTimestamp := env.now);
        match a.value
        case StartAction(e) =>
        case PauseAction =>
        case ResumeAction =>
        case StopAction =>
        case OtherAction(_) =>
      }
    case TimerFires =>
    case StatusRequested =>
    case OutputFileRequested =>
    case Destroyed =>
  }

  /** One engine step, its broadcasts received by the bridge. */
  datatype System = System(svc: Engine.Service, mirror: Bridge.Mirror, fs: FileSys)

  function EngineStep(sys: System, input: Engine.Input, env: Engine.Env): (r: System)
    ensures r.svc == Engine.Apply(sys.svc, input, sys.fs, env).svc
    ensures r.fs == Engine.Apply(sys.svc, input, sys.fs, env).fs
  {
    var run := Engine.Apply(sys.svc, input, sys.fs, env);
    System(run.svc, ReceiveAll(sys.mirror, run.out, run.fs).mirror, run.fs)
  }

  /** When the engine and the bridge agree, they still agree once the bridge
      has received everything an engine step broadcast. */
  lemma StepKeepsAgreement(sys: System, input: Engine.Input, env: Engine.Env)
    requires Engine.Valid(sys.svc) && Agree(sys.svc, sys.mirror)
    ensures Engine.Valid(EngineStep(sys, input, env).svc)
    ensures Agree(EngineStep(sys, input, env).svc, EngineStep(sys, input, env).mirror)
  {
    var run := Engine.Apply(sys.svc, input, sys.fs, env);
    Engine.ApplyPreservesValid(sys.svc, input, sys.fs, env);
    ApplyOutputShape(sys.svc, input, sys.fs, env);
    if run.out != [] && run.out[|run.out| - 1] == Engine.StatusOf(run.svc) {
      LastStatusDecides(sys.mirror, run.out, run.fs);
    } else {
      FlagFreeKeepsFlags(sys.mirror, run.out, run.fs);
    }
  }

  /** A run of engine steps, each with its own platform outcomes. */
  function EngineRun(sys: System, inputs: seq<Engine.Input>, envs: seq<Engine.Env>): (r: System)
    requires |inputs| == |envs|
    ensures inputs == [] ==> r == sys
    decreases |inputs|
  {
    if inputs == [] then sys
    else EngineRun(EngineStep(sys, inputs[0], envs[0]), inputs[1..], envs[1..])
  }

  /** Starting from the initial states, the bridge's flags equal the engine's
      after every run of engine steps. */
  lemma {:induction false} RunKeepsAgreement(sys: System, inputs: seq<Engine.Input>, envs: seq<Engine.Env>)
    requires |inputs| == |envs|
    requires Engine.Valid(sys.svc) && Agree(sys.svc, sys.mirror)
    ensures Engine.Valid(EngineRun(sys, inputs, envs).svc)
    ensures Agree(EngineRun(sys, inputs, envs).svc, EngineRun(sys, inputs, envs).mirror)
    decreases |inputs|
  {
    if inputs != [] {
      StepKeepsAgreement(sys, inputs[0], envs[0]);
      RunKeepsAgreement(EngineStep(sys, inputs[0], envs[0]), inputs[1..], envs[1..]);
    }
  }

  lemma InitialAgree()
    ensures Engine.Valid(Engine.Initial) && Agree(Engine.Initial, Bridge.Initial)
  {
  }

  /** `onHostResume` reconciles the bridge with the engine, however far they
      had drifted: once the engine answers the status request, the mirror
      holds the engine's flags and time, and its file whenever it has one. */
  lemma HostResumeReconciles(s: Engine.Service, m: Bridge.Mirror, fs: FileSys, env: Engine.Env)
    ensures var (_, request) := Bridge.OnHostResume(m);
      var run := Engine.Apply(s, request, fs, env);
      var m' := ReceiveAll(m, run.out, run.fs).mirror;
      && run.svc == s
      && Agree(s, m') && m'.currentRecordingTime == s.currentRecordingTime
      && (s.outputFile.Some? ==> m'.currentOutputFile == s.outputFile)
  {
    var run := Engine.Apply(s, Engine.StatusRequested, fs, env);
    ReceiveAllCons(m, run.out, run.fs);
  }

  /** The bridge commits its flags before the engine acts, and the engine
      drops actions closer than 300 ms: a pause followed 100 ms later by a
      resume leaves the engine paused and the bridge believing it is not. */
  lemma DebounceDesync()
    ensures
      var fs: FileSys := map["/r.m4a" := 10];
      var sys := System(Engine.Service(Some("/r.m4a"), true, false, 0, 0, 1, Some(0), 0),
                        Bridge.Mirror(true, false, Some("/r.m4a"), 1), fs);
      var env1 := Engine.Env(1000, 1000, "/files", true, true);
      var env2 := Engine.Env(1100, 1100, "/files", true, true);
      var pause := Bridge.PauseRecording(sys.mirror, None);
      var afterPause := EngineStep(sys.(mirror := pause.mirror), pause.sent.value, env1);
      var resume := Bridge.ResumeRecording(afterPause.mirror, None);
      var afterResume := EngineStep(afterPause.(mirror := resume.mirror), resume.sent.value, env2);
      && Agree(sys.svc, sys.mirror)
      && pause.reply == Bridge.Resolved && resume.reply == Bridge.Resolved
      && afterResume.svc.isPaused && !afterResume.mirror.isPaused
  {
    var fs: FileSys := map["/r.m4a" := 10];
    var sys := System(Engine.Service(Some("/r.m4a"), true, false, 0, 0, 1, Some(0), 0),
                      Bridge.Mirror(true, false, Some("/r.m4a"), 1), fs);
    var env1 := Engine.Env(1000, 1000, "/files", true, true);
    var pause := Bridge.PauseRecording(sys.mirror, None);
    var run1 := Engine.Apply(sys.svc, pause.sent.value, fs, env1);
    assert run1.svc.isPaused;
    LastStatusDecides(pause.mirror, run1.out, run1.fs);
  }

  // ---------------------------------------------------------------------------
  // Bridge to observer
  // ---------------------------------------------------------------------------

  /** One observer step: the handling of one event. */
  type Handler = (Observer.Recorder, Bridge.JsEvent) -> Observer.Handled

  /** A sequence of emissions handled in order, one step each. */
  function DeliverFold(o: Observer.Recorder, es: seq<Bridge.Emission>, step: Handler): Observer.Handled
    decreases |es|
  {
    if es == [] then Observer.Handled(o, [])
    else
      var h := step(o, es[0].event);
      var t := DeliverFold(h.rec, es[1..], step);
      Observer.Handled(t.rec, h.notified + t.notified)
  }

  /** Handling `a + b` is handling `a`, then `b` from where `a` left off. */
  lemma {:induction false} DeliverFoldAppend(o: Observer.Recorder, a: seq<Bridge.Emission>, b: seq<Bridge.Emission>, step: Handler)
    ensures DeliverFold(o, a + b, step).rec == DeliverFold(DeliverFold(o, a, step).rec, b, step).rec
    ensures DeliverFold(o, a + b, step).notified ==
      DeliverFold(o, a, step).notified + DeliverFold(DeliverFold(o, a, step).rec, b, step).notified
    decreases |a|
  {
    if a == [] {
      assert a + b == b;
    } else {
      var h := step(o, a[0].event);
      assert (a + b)[0] == a[0];
      assert (a + b)[1..] == a[1..] + b;
      DeliverFoldAppend(h.rec, a[1..], b, step);
      var x := DeliverFold(h.rec, a[1..], step);
      var y := DeliverFold(x.rec, b, step);
      assert h.notified + (x.notified + y.notified) == (h.notified + x.notified) + y.notified;
    }
  }

  /** The observer receiving a sequence of emissions in order. */
  function DeliverAll(o: Observer.Recorder, es: seq<Bridge.Emission>): (r: Observer.Handled)
    ensures es == [] ==> r == Observer.Handled(o, [])
    ensures ListenersKept(o, r.rec)
  {
    DeliverAllKeepsListeners(o, es);
    DeliverFold(o, es, (x, e) => Observer.Deliver(x, e))
  }

  predicate ListenersKept(o: Observer.Recorder, o': Observer.Recorder) {
    && o'.timeListeners == o.timeListeners && o'.statusListeners == o.statusListeners
    && o'.completeListeners == o.completeListeners
  }

  /** No event changes the listener registries. */
  lemma {:induction false} DeliverAllKeepsListeners(o: Observer.Recorder, es: seq<Bridge.Emission>)
    ensures ListenersKept(o, DeliverFold(o, es, (x, e) => Observer.Deliver(x, e)).rec)
    decreases |es|
  {
    if es != [] {
      DeliverAllKeepsListeners(Observer.Deliver(o, es[0].event).rec, es[1..]);
    }
  }

  /** Delivering a non-empty sequence is delivering its first event, then
      the rest. */
  lemma DeliverAllCons(o: Observer.Recorder, es: seq<Bridge.Emission>)
    requires es != []
    ensures DeliverAll(o, es).rec == DeliverAll(Observer.Deliver(o, es[0].event).rec, es[1..]).rec
    ensures DeliverAll(o, es).notified ==
      Observer.Deliver(o, es[0].event).notified + DeliverAll(Observer.Deliver(o, es[0].event).rec, es[1..]).notified
  {
  }

  /** Delivering `a + b` is delivering `a`, then `b` from where `a` left off. */
  lemma DeliverAllAppend(o: Observer.Recorder, a: seq<Bridge.Emission>, b: seq<Bridge.Emission>)
    ensures DeliverAll(o, a + b).rec == DeliverAll(DeliverAll(o, a).rec, b).rec
    ensures DeliverAll(o, a + b).notified == DeliverAll(o, a).notified + DeliverAll(DeliverAll(o, a).rec, b).notified
  {
    DeliverFoldAppend(o, a, b, (x, e) => Observer.Deliver(x, e));
  }

  /** The observer and the bridge agree on the two flags. */
  predicate Reflects(o: Observer.Recorder, m: Bridge.Mirror) {
    o.isRecording == m.isRecording && o.isPaused == m.isPaused
  }

  /** A burst of one status snapshot leaves the observer holding exactly it. */
  lemma {:induction false} DeliverSnapshots(o: Observer.Recorder, es: seq<Bridge.Emission>, snap: Bridge.Snapshot)
    requires es != []
    requires forall i :: 0 <= i < |es| ==> es[i].event == Bridge.StatusChange(snap)
    ensures var o' := DeliverAll(o, es).rec;
      && o'.isRecording == snap.isRecording && o'.isPaused == snap.isPaused
      && o'.recordingTime == snap.currentTime && o'.outputFile == snap.outputFile
    decreases |es|
  {
    DeliverAllCons(o, es);
    if |es| > 1 {
      DeliverSnapshots(Observer.Deliver(o, es[0].event).rec, es[1..], snap);
    }
  }

  /** When the observer agrees with the bridge, it still agrees once it has
      heard every event the bridge emitted for one broadcast. */
  lemma ReceiveKeepsReflection(o: Observer.Recorder, m: Bridge.Mirror, b: Engine.Broadcast, fs: FileSys)
    requires Reflects(o, m)
    ensures var r := Bridge.Receive(m, b, fs);
      Reflects(DeliverAll(o, r.out).rec, r.mirror)
  {
    var r := Bridge.Receive(m, b, fs);
    match b
    case OutputFileSet(f) =>
      if f.Some? {
        DeliverSnapshots(o, r.out, Bridge.SnapshotOf(r.mirror));
      }
    case RecordingStatus(_, _, _, _) =>
      DeliverSnapshots(o, r.out, Bridge.SnapshotOf(r.mirror));
    case TimeUpdate(_, _) =>
      DeliverAllCons(o, r.out);
    case RecordingCompleted(f, _, d) =>
      if f.Some? && HasContent(fs, f.value) {
        var o1 := Observer.Deliver(o, r.out[0].event).rec;
        assert r.out == [r.out[0]] + [r.out[1]];
        DeliverAllAppend(o, [r.out[0]], [r.out[1]]);
        DeliverSnapshots(o1, [r.out[1]], Bridge.Snapshot(false, false, Some(Bridge.Url(f.value)), d));
      }
    case RecordingError(_) =>
      var o1 := Observer.Deliver(o, r.out[0].event).rec;
      assert r.out == [r.out[0]] + [r.out[1]];
      DeliverAllAppend(o, [r.out[0]], [r.out[1]]);
      DeliverSnapshots(o1, [r.out[1]], Bridge.SnapshotOf(r.mirror));
  }

  // ---------------------------------------------------------------------------
  // Completion, end to end
  // ---------------------------------------------------------------------------

  function CountCompletions(bs: seq<Engine.Broadcast>): (n: nat)
    ensures n <= |bs|
    ensures n == 0 <==> forall i :: 0 <= i < |bs| ==> !Engine.IsCompletion(bs[i])
  {
    if bs == [] then 0
    else (if Engine.IsCompletion(bs[0]) then 1 else 0) + CountCompletions(bs[1..])
  }

  function CountCompleteEvents(es: seq<Bridge.Emission>): (n: nat)
    ensures n <= |es|
    ensures n == 0 <==> forall i :: 0 <= i < |es| ==> !es[i].event.RecordingComplete?
  {
    if es == [] then 0
    else (if es[0].event.RecordingComplete? then 1 else 0) + CountCompleteEvents(es[1..])
  }

  function CountCompleteNotices(ns: seq<Observer.Notification>): (n: nat)
    ensures n <= |ns|
    ensures n == 0 <==> forall i :: 0 <= i < |ns| ==> !ns[i].notice.CompleteNotice?
  {
    if ns == [] then 0
    else (if ns[0].notice.CompleteNotice? then 1 else 0) + CountCompleteNotices(ns[1..])
  }

  lemma {:induction false} CountCompletionsAppend(a: seq<Engine.Broadcast>, b: seq<Engine.Broadcast>)
    ensures CountCompletions(a + b) == CountCompletions(a) + CountCompletions(b)
    decreases |a|
  {
    if a == [] {
      assert a + b == b;
    } else {
      assert (a + b)[0] == a[0];
      assert (a + b)[1..] == a[1..] + b;
      CountCompletionsAppend(a[1..], b);
    }
  }

  lemma {:induction false} CountCompleteEventsAppend(a: seq<Bridge.Emission>, b: seq<Bridge.Emission>)
    ensures CountCompleteEvents(a + b) == CountCompleteEvents(a) + CountCompleteEvents(b)
    decreases |a|
  {
    if a == [] {
      assert a + b == b;
    } else {
      assert (a + b)[0] == a[0];
      assert (a + b)[1..] == a[1..] + b;
      CountCompleteEventsAppend(a[1..], b);
    }
  }

  lemma {:induction false} CountCompleteNoticesAppend(a: seq<Observer.Notification>, b: seq<Observer.Notification>)
    ensures CountCompleteNotices(a + b) == CountCompleteNotices(a) + CountCompleteNotices(b)
    decreases |a|
  {
    if a == [] {
      assert a + b == b;
    } else {
      assert (a + b)[0] == a[0];
      assert (a + b)[1..] == a[1..] + b;
      CountCompleteNoticesAppend(a[1..], b);
    }
  }

  /** The bridge turns a broadcast into a completion event exactly when it is
      a completion naming a file with content. */
  lemma ReceiveCompleteEvents(m: Bridge.Mirror, b: Engine.Broadcast, fs: FileSys)
    ensures CountCompleteEvents(Bridge.Receive(m, b, fs).out) ==
      if Engine.IsCompletion(b) && b.file.Some? && HasContent(fs, b.file.value) then 1 else 0
  {
  }

  /** Every completion the engine announces for a file with content reaches
      the JavaScript side as one completion event, and nothing else does. */
  lemma {:induction false} ReceiveAllCompleteEvents(m: Bridge.Mirror, bs: seq<Engine.Broadcast>, fs: FileSys)
    requires forall i :: 0 <= i < |bs| && Engine.IsCompletion(bs[i]) ==>
      bs[i].file.Some? && HasContent(fs, bs[i].file.value)
    ensures CountCompleteEvents(ReceiveAll(m, bs, fs).out) == CountCompletions(bs)
    decreases |bs|
  {
    if bs != [] {
      var h := Bridge.Receive(m, bs[0], fs);
      ReceiveCompleteEvents(m, bs[0], fs);
      ReceiveAllCompleteEvents(h.mirror, bs[1..], fs);
      CountCompleteEventsAppend(h.out, ReceiveAll(h.mirror, bs[1..], fs).out);
    }
  }

  /** Invocations that all carry one notice hold that many completion
      notices when it is a completion, and none otherwise. */
  lemma {:induction false} UniformNotices(ns: seq<Observer.Notification>, n: Observer.Notice)
    requires forall i :: 0 <= i < |ns| ==> ns[i].notice == n
    ensures CountCompleteNotices(ns) == if n.CompleteNotice? then |ns| else 0
    decreases |ns|
  {
    if ns != [] {
      UniformNotices(ns[1..], n);
    }
  }

  /** Each completion event reaches the completion listeners a `forEach`
      reaches, once each. */
  lemma NotifyAllCompleteNotices(ls: seq<Observer.Listener>, n: Observer.Notice)
    ensures CountCompleteNotices(Observer.NotifyAll(ls, n)) == if n.CompleteNotice? then Observer.Reach(ls) else 0
  {
    UniformNotices(Observer.NotifyAll(ls, n), n);
  }

  /** One event reaches the completion listeners only if it is a completion. */
  lemma DeliverCompleteNotices(o: Observer.Recorder, e: Bridge.JsEvent)
    ensures CountCompleteNotices(Observer.Deliver(o, e).notified) ==
      if e.RecordingComplete? then Observer.Reach(o.completeListeners) else 0
  {
    match e {
      case StatusChange(snap) =>
        NotifyAllCompleteNotices(o.statusListeners,
          Observer.StatusNotice(snap.isRecording, snap.isPaused, snap.currentTime, snap.outputFile, None));
      case TimeUpdateEvent(t, _) =>
        UniformNotices(Observer.NotifyEach(o.timeListeners, Observer.TimeNotice(t)), Observer.TimeNotice(t));
      case RecordingComplete(f, d) =>
        NotifyAllCompleteNotices(o.completeListeners, Observer.CompleteNotice(f, d));
      case RecordingErrorEvent(msg) =>
        NotifyAllCompleteNotices(o.statusListeners,
          Observer.StatusNotice(false, false, 0, None, Some(if msg != "" then msg else Observer.UnknownRecordingError)));
    }
  }

  /** Counting completion notices through any handler that keeps the
      completion registry, calls it `k` times for a completion event and
      never for any other event. */
  lemma {:induction false} FoldCompleteNotices(o: Observer.Recorder, es: seq<Bridge.Emission>, step: Handler, k: nat)
    requires forall x: Observer.Recorder, e: Bridge.JsEvent :: x.completeListeners == o.completeListeners ==>
      && step(x, e).rec.completeListeners == o.completeListeners
      && CountCompleteNotices(step(x, e).notified) == (if e.RecordingComplete? then k else 0)
    ensures CountCompleteNotices(DeliverFold(o, es, step).notified) == k * CountCompleteEvents(es)
    decreases |es|
  {
    if es != [] {
      var h := step(o, es[0].event);
      var c := if es[0].event.RecordingComplete? then 1 else 0;
      FoldCompleteNotices(h.rec, es[1..], step, k);
      CountCompleteNoticesAppend(h.notified, DeliverFold(h.rec, es[1..], step).notified);
      assert CountCompleteEvents(es) == c + CountCompleteEvents(es[1..]);
      Distribute(k, c, CountCompleteEvents(es[1..]));
    }
  }

  /** The observer calls the completion listeners it reaches once each for
      every completion event, and at no other time. */
  lemma DeliverAllCompleteNotices(o: Observer.Recorder, es: seq<Bridge.Emission>)
    ensures CountCompleteNotices(DeliverAll(o, es).notified) == Observer.Reach(o.completeListeners) * CountCompleteEvents(es)
  {
    var k := Observer.Reach(o.completeListeners);
    var step: Handler := (x, e) => Observer.Deliver(x, e);
    forall x: Observer.Recorder, e: Bridge.JsEvent | x.completeListeners == o.completeListeners
      ensures step(x, e).rec.completeListeners == o.completeListeners
      ensures CountCompleteNotices(step(x, e).notified) == (if e.RecordingComplete? then k else 0)
    {
      DeliverCompleteNotices(x, e);
    }
    FoldCompleteNotices(o, es, step, k);
  }

  lemma Distribute(k: nat, c: nat, x: nat)
    ensures k * (c + x) == k * c + k * x
  {
  }

  /** Stopping a recording whose file has content announces the completion
      three times when the copy succeeds and once when it fails. */
  lemma StopCompletionCount(s: Engine.Service, fs: FileSys, env: Engine.Env)
    requires s.isRecording && s.outputFile.Some? && HasContent(fs, s.outputFile.value)
    ensures CountCompletions(Engine.StopRecording(s, fs, env).out) == if env.copySucceeds then 3 else 1
  {
    var r := Engine.StopRecording(s, fs, env);
    var n := |r.out|;
    var k := if env.copySucceeds then 4 else 2;
    assert r.out == r.out[..1] + r.out[1..k] + r.out[k..];
    CountCompletionsAppend(r.out[..1] + r.out[1..k], r.out[k..]);
    CountCompletionsAppend(r.out[..1], r.out[1..k]);
    if env.copySucceeds {
      assert r.out[1..4] == [r.out[1]] + [r.out[2]] + [r.out[3]];
      CountCompletionsAppend([r.out[1]] + [r.out[2]], [r.out[3]]);
      CountCompletionsAppend([r.out[1]], [r.out[2]]);
    }
  }

  /** Completions naming files with content reach the completion listeners
      on the JavaScript side once each, up to the first that throws. */
  lemma CompletionsReachListeners(m: Bridge.Mirror, o: Observer.Recorder, bs: seq<Engine.Broadcast>, fs: FileSys)
    requires forall i :: 0 <= i < |bs| && Engine.IsCompletion(bs[i]) ==>
      bs[i].file.Some? && HasContent(fs, bs[i].file.value)
    ensures CountCompleteEvents(ReceiveAll(m, bs, fs).out) == CountCompletions(bs)
    ensures CountCompleteNotices(DeliverAll(o, ReceiveAll(m, bs, fs).out).notified)
      == Observer.Reach(o.completeListeners) * CountCompletions(bs)
  {
    ReceiveAllCompleteEvents(m, bs, fs);
    DeliverAllCompleteNotices(o, ReceiveAll(m, bs, fs).out);
  }

  /** A stop with a successful copy, end to end: three completion events, and
      every completion listener on the JavaScript side is called three times
      when none of them throws. */
  lemma StopNotifiesCompletionThrice(s: Engine.Service, m: Bridge.Mirror, o: Observer.Recorder, fs: FileSys, env: Engine.Env)
    requires s.isRecording && s.outputFile.Some? && HasContent(fs, s.outputFile.value) && env.copySucceeds
    ensures var r := Engine.StopRecording(s, fs, env);
      var events := ReceiveAll(m, r.out, r.fs).out;
      && CountCompleteEvents(events) == 3
      && CountCompleteNotices(DeliverAll(o, events).notified) == 3 * Observer.Reach(o.completeListeners)
      && (!Observer.AnyThrows(o.completeListeners) ==>
            CountCompleteNotices(DeliverAll(o, events).notified) == 3 * |o.completeListeners|)
  {
    var r := Engine.StopRecording(s, fs, env);
    StopCompletionCount(s, fs, env);
    CompletionsReachListeners(m, o, r.out, r.fs);
  }

  // ---------------------------------------------------------------------------
  // Commands, end to end
  // ---------------------------------------------------------------------------

  /** The recording commands the JavaScript side issues. */
  datatype Command = Start(elapsed: int) | Pause | Resume | Stop

  /** The bridge's handling of a command. */
  function BridgeCommand(m: Bridge.Mirror, c: Command, hasPermission: bool, launchError: Option<string>): Bridge.Command {
    match c
    case Start(e) => Bridge.StartRecording(m, hasPermission, e, launchError)
    case Pause => Bridge.PauseRecording(m, launchError)
    case Resume => Bridge.ResumeRecording(m, launchError)
    case Stop => Bridge.StopRecording(m, launchError)
  }

  /** The engine acting on what a command sent, if anything. */
  function React(s: Engine.Service, sent: Option<Engine.Input>, fs: FileSys, env: Engine.Env): (r: Engine.Run)
    ensures sent.None? ==> r == Engine.Run(s, [], fs)
    ensures sent.Some? ==> r == Engine.Apply(s, sent.value, fs, env)
  {
    if sent.Some? then Engine.Apply(s, sent.value, fs, env) else Engine.Run(s, [], fs)
  }

  /** The bridge's optimistic update predicts the engine. When the two agree
      and the command's intent reaches the engine outside the debounce window
      (for a start: with the recorder starting and the bridge not paused),
      they agree again once the bridge has received the engine's broadcasts,
      and a resolved start, pause or resume has already committed the flags
      the engine ends with. */
  lemma CommandThenEngineAgrees(sys: System, c: Command, hasPermission: bool, launchError: Option<string>, env: Engine.Env)
    requires Engine.Valid(sys.svc) && Agree(sys.svc, sys.mirror)
    requires env.now - sys.svc.lastActionTimestamp >= Engine.DebounceMs
    requires c.Start? ==> env.recorderStarts && !sys.mirror.isPaused
    ensures var b := BridgeCommand(sys.mirror, c, hasPermission, launchError);
      var run := React(sys.svc, b.sent, sys.fs, env);
      && Engine.Valid(run.svc)
      && Agree(run.svc, ReceiveAll(b.mirror, run.out, run.fs).mirror)
      && (b.reply == Bridge.Resolved && !c.Stop? ==> Agree(run.svc, b.mirror))
  {
    var b := BridgeCommand(sys.mirror, c, hasPermission, launchError);
    if b.sent.Some? {
      var run := Engine.Apply(sys.svc, b.sent.value, sys.fs, env);
      Engine.ApplyPreservesValid(sys.svc, b.sent.value, sys.fs, env);
      ApplyOutputShape(sys.svc, b.sent.value, sys.fs, env);
      if run.out != [] && run.out[|run.out| - 1] == Engine.StatusOf(run.svc) {
        LastStatusDecides(b.mirror, run.out, run.fs);
      } else {
        FlagFreeKeepsFlags(b.mirror, run.out, run.fs);
      }
    }
  }

  /** The bridge accepts a start while paused and the engine, already
      recording, keeps its flags, so the bridge believes the recording runs
      while the engine stays paused. */
  lemma StartWhilePausedDesync()
    ensures
      var s := Engine.Service(Some("/r.m4a"), true, true, 0, 5, 5, None, 0);
      var m := Bridge.Mirror(true, true, Some("/r.m4a"), 5);
      var env := Engine.Env(1000, 1000, "/files", true, true);
      var b := Bridge.StartRecording(m, true, 5, None);
      var run := React(s, b.sent, map[], env);
      && Engine.Valid(s) && Agree(s, m) && b.reply == Bridge.Resolved
      && run.svc.isPaused && !ReceiveAll(b.mirror, run.out, run.fs).mirror.isPaused
  {
  }

  /** A force stop through the bridge: once the stop went through, the engine
      is idle with no file and no time and, after the bridge has received its
      broadcasts, agrees with it; a resolved force stop emitted exactly the
      engine's final state. */
  lemma ForceStopThenEngineAgrees(sys: System, stopError: Option<string>, cancelError: Option<string>, env: Engine.Env)
    requires Engine.Valid(sys.svc) && Agree(sys.svc, sys.mirror)
    ensures var (b, emitted) := Bridge.ForceStopService(sys.mirror, stopError, cancelError);
      var run := React(sys.svc, b.sent, sys.fs, env);
      && Engine.Valid(run.svc)
      && Agree(run.svc, ReceiveAll(b.mirror, run.out, run.fs).mirror)
      && (stopError.None? ==>
            && !run.svc.isRecording && !run.svc.isPaused
            && run.svc.outputFile == None && run.svc.currentRecordingTime == 0)
      && (b.reply == Bridge.Resolved ==>
            emitted == [Bridge.Emission(0, Bridge.StatusChange(Bridge.Snapshot(
              run.svc.isRecording, run.svc.isPaused, run.svc.outputFile, run.svc.currentRecordingTime)))])
  {
    var (b, emitted) := Bridge.ForceStopService(sys.mirror, stopError, cancelError);
    if stopError.None? {
      var run := Engine.OnDestroy(sys.svc, sys.fs, env);
      Engine.ApplyPreservesValid(sys.svc, Engine.Destroyed, sys.fs, env);
      LastStatusDecides(b.mirror, run.out, run.fs);
    }
  }

  /** The observer's guards in front of the bridge: a start needs Android,
      the others the recording state they act on. */
  predicate ObserverGuard(o: Observer.Recorder, c: Command, isAndroid: bool) {
    match c
    case Start(_) => isAndroid
    case Pause => o.isRecording && !o.isPaused
    case Resume => o.isRecording && o.isPaused
    case Stop => o.isRecording
  }

  /** How the bridge's reply settles the observer's native call. */
  function NativeOf(r: Bridge.Reply): Observer.NativeResult {
    if r.Resolved? then Observer.NativeOk else Observer.NativeRejected(r.message)
  }

  /** A command issued through the observer: its own guards first and then,
      when they pass, the bridge command, whose reply settles the observer's
      native call. The second component is the bridge's handling, `None`
      when the bridge is never called. */
  function Issue(o: Observer.Recorder, m: Bridge.Mirror, c: Command, isAndroid: bool,
                 hasPermission: bool, launchError: Option<string>): (r: (Observer.Call, Option<Bridge.Command>))
    ensures r.1.Some? <==> ObserverGuard(o, c, isAndroid)
  {
    var b := BridgeCommand(m, c, hasPermission, launchError);
    var native := NativeOf(b.reply);
    var call := match c
      case Start(_) => Observer.StartRecording(o, isAndroid, true, native)
      case Pause => Observer.PauseRecording(o, true, native)
      case Resume => Observer.ResumeRecording(o, true, native)
      case Stop => Observer.StopRecording(o, true, native);
    (call, if ObserverGuard(o, c, isAndroid) then Some(b) else None)
  }

  /** The observer's optimistic update matches the bridge's: from agreement
      they agree after any command, the observer reports success exactly when
      the bridge resolved, and the observer's guards keep the bridge from ever
      refusing for its state. */
  lemma ObserverCommandReflects(o: Observer.Recorder, m: Bridge.Mirror, c: Command, isAndroid: bool,
                                hasPermission: bool, launchError: Option<string>)
    requires Reflects(o, m)
    ensures var (call, b) := Issue(o, m, c, isAndroid, hasPermission, launchError);
      && Reflects(call.rec, if b.Some? then b.value.mirror else m)
      && (call.outcome == Observer.Returned(true) <==> b.Some? && b.value.reply == Bridge.Resolved)
      && (b.Some? && b.value.reply.Rejected? ==> b.value.reply.code != "INVALID_STATE")
  {
  }

  /** The observer keeps reflecting the bridge across any run of broadcasts
      once it has heard every event the bridge emitted for them. */
  lemma {:induction false} ReceiveAllKeepsReflection(o: Observer.Recorder, m: Bridge.Mirror, bs: seq<Engine.Broadcast>, fs: FileSys)
    requires Reflects(o, m)
    ensures Reflects(DeliverAll(o, ReceiveAll(m, bs, fs).out).rec, ReceiveAll(m, bs, fs).mirror)
    decreases |bs|
  {
    if bs != [] {
      var h := Bridge.Receive(m, bs[0], fs);
      var o1 := DeliverAll(o, h.out).rec;
      ReceiveAllCons(m, bs, fs);
      ReceiveKeepsReflection(o, m, bs[0], fs);
      ReceiveAllKeepsReflection(o1, h.mirror, bs[1..], fs);
      DeliverAllAppend(o, h.out, ReceiveAll(h.mirror, bs[1..], fs).out);
    }
  }

  /** A command issued from JavaScript, end to end: when the observer, the
      bridge and the engine agree on the flags, they agree again once the
      engine has acted on the command and the bridge's events have reached
      the observer. */
  lemma CommandKeepsSessionAgreeing(sys: System, o: Observer.Recorder, c: Command, isAndroid: bool,
                                    hasPermission: bool, launchError: Option<string>, env: Engine.Env)
    requires Engine.Valid(sys.svc) && Agree(sys.svc, sys.mirror) && Reflects(o, sys.mirror)
    requires env.now - sys.svc.lastActionTimestamp >= Engine.DebounceMs
    requires c.Start? ==> env.recorderStarts && !sys.mirror.isPaused
    ensures var (call, b) := Issue(o, sys.mirror, c, isAndroid, hasPermission, launchError);
      var m1 := if b.Some? then b.value.mirror else sys.mirror;
      var run := React(sys.svc, if b.Some? then b.value.sent else None, sys.fs, env);
      var rec := ReceiveAll(m1, run.out, run.fs);
      && Engine.Valid(run.svc)
      && Agree(run.svc, rec.mirror)
      && Reflects(DeliverAll(call.rec, rec.out).rec, rec.mirror)
  {
    var (call, b) := Issue(o, sys.mirror, c, isAndroid, hasPermission, launchError);
    var m1 := if b.Some? then b.value.mirror else sys.mirror;
    var run := React(sys.svc, if b.Some? then b.value.sent else None, sys.fs, env);
    ObserverCommandReflects(o, sys.mirror, c, isAndroid, hasPermission, launchError);
    if b.Some? {
      CommandThenEngineAgrees(sys, c, hasPermission, launchError, env);
    }
    ReceiveAllKeepsReflection(call.rec, m1, run.out, run.fs);
  }
}
