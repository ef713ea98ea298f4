/** The safe-stop sequencer (`SafeStopManager`) of cineluck/state/machine.py.

    A request sets the busy flag and hands the work to a background worker;
    here the worker is a separate step, `RunStopWorker`, that runs when the
    thread would.  The collaborators are represented by whether they were
    passed at all (the source skips calls on None) and by the outcome of each
    call, given as input.  The second variant of the class, used when the UI
    toolkit is missing, runs synchronously (`SafeStopSynchronous`). */
module SafeStop {
  import opened Wrappers
  import opened Seqs
  import opened StateMachine

  /** Which collaborators the caller passed; an absent one is never called. */
  datatype Collaborators = Collaborators(hasCamera: bool, hasEncoder: bool)

  /** The busy flag, and the worker a started request is waiting on. */
  datatype StopManager = StopManager(stopInProgress: bool, worker: Option<Collaborators>)

  /** The flag is set exactly while a worker is pending. */
  predicate Consistent(s: StopManager) {
    s.stopInProgress <==> s.worker.Some?
  }

  function NewStopManager(): StopManager {
    StopManager(false, None)
  }

  /** The collaborator calls the worker makes. */
  datatype Call = DrainEncoder | FinalizeRecording | StopCameraRecording

  /** Notifications of the sequencer (progress and completion), calls into
      collaborators, and the notifications of the state machine it drives. */
  datatype StopEvent =
    | Progress(message: string)
    | Completed(success: bool)
    | Called(call: Call)
    | MachineEvent(event: Event)

  /** What each collaborator call does when it is made. */
  datatype StepOutcomes = StepOutcomes(drain: HookResult, finalize: HookResult, cameraStop: HookResult)

  const StoppingMessage: string := "Stopping recording..."
  const DrainingMessage: string := "Draining encoder..."
  const FinalizingFileMessage: string := "Finalizing file..."
  const FinalizingCameraMessage: string := "Finalizing camera..."
  const ReturningMessage: string := "Returning to preview..."
  const ReadyMessage: string := "Ready"
  const ErrorsMessage: string := "Stop completed with errors"

  /** The progress messages of an uninterrupted run, in order. */
  const StepMessages: seq<string> :=
    [StoppingMessage, DrainingMessage, FinalizingFileMessage, FinalizingCameraMessage, ReturningMessage]

  function FailedMessage(reason: string): string {
    "Stop failed: " + reason
  }

  function ProgressOf(trace: seq<StopEvent>): seq<string> {
    if trace == [] then []
    else (if trace[0].Progress? then [trace[0].message] else []) + ProgressOf(trace[1..])
  }

  function CompletionsOf(trace: seq<StopEvent>): seq<bool> {
    if trace == [] then []
    else (if trace[0].Completed? then [trace[0].success] else []) + CompletionsOf(trace[1..])
  }

  function CallsOf(trace: seq<StopEvent>): seq<Call> {
    if trace == [] then []
    else (if trace[0].Called? then [trace[0].call] else []) + CallsOf(trace[1..])
  }

  function MachineEventsOf(trace: seq<StopEvent>): seq<Event> {
    if trace == [] then []
    else (if trace[0].MachineEvent? then [trace[0].event] else []) + MachineEventsOf(trace[1..])
  }

  /** The state machine's notifications as they appear in the stop trace. */
  function Lift(events: seq<Event>): (r: seq<StopEvent>)
    ensures |r| == |events|
    ensures forall k :: 0 <= k < |r| ==> r[k] == MachineEvent(events[k])
  {
    if events == [] then [] else [MachineEvent(events[0])] + Lift(events[1..])
  }

  lemma {:induction false} ProgressAppend(a: seq<StopEvent>, b: seq<StopEvent>)
    ensures ProgressOf(a + b) == ProgressOf(a) + ProgressOf(b)
  {
    if a == [] {
      assert a + b == b;
    } else {
      assert (a + b)[1..] == a[1..] + b;
      ProgressAppend(a[1..], b);
      assert (a + b)[0] == a[0];
      AppendAssoc(if a[0].Progress? then [a[0].message] else [], ProgressOf(a[1..]), ProgressOf(b));
    }
  }

  lemma {:induction false} CompletionsAppend(a: seq<StopEvent>, b: seq<StopEvent>)
    ensures CompletionsOf(a + b) == CompletionsOf(a) + CompletionsOf(b)
  {
    if a == [] {
      assert a + b == b;
    } else {
      assert (a + b)[1..] == a[1..] + b;
      CompletionsAppend(a[1..], b);
      assert (a + b)[0] == a[0];
      AppendAssoc(if a[0].Completed? then [a[0].success] else [], CompletionsOf(a[1..]), CompletionsOf(b));
    }
  }

  lemma {:induction false} CallsAppend(a: seq<StopEvent>, b: seq<StopEvent>)
    ensures CallsOf(a + b) == CallsOf(a) + CallsOf(b)
  {
    if a == [] {
      assert a + b == b;
    } else {
      assert (a + b)[0] == a[0];
      assert (a + b)[1..] == a[1..] + b;
      CallsAppend(a[1..], b);
      assert (a + b)[0] == a[0];
      AppendAssoc(if a[0].Called? then [a[0].call] else [], CallsOf(a[1..]), CallsOf(b));
      assert CallsOf(a + b) == (if a[0].Called? then [a[0].call] else []) + CallsOf(a[1..] + b);
    }
  }

  lemma {:induction false} MachineEventsAppend(a: seq<StopEvent>, b: seq<StopEvent>)
    ensures MachineEventsOf(a + b) == MachineEventsOf(a) + MachineEventsOf(b)
  {
    if a == [] {
      assert a + b == b;
    } else {
      assert (a + b)[1..] == a[1..] + b;
      MachineEventsAppend(a[1..], b);
      assert (a + b)[0] == a[0];
      AppendAssoc(if a[0].MachineEvent? then [a[0].event] else [], MachineEventsOf(a[1..]), MachineEventsOf(b));
    }
  }

  /** Filtering a stop trace distributes over concatenation. */
  lemma TraceAppend(a: seq<StopEvent>, b: seq<StopEvent>)
    ensures ProgressOf(a + b) == ProgressOf(a) + ProgressOf(b)
    ensures CompletionsOf(a + b) == CompletionsOf(a) + CompletionsOf(b)
    ensures CallsOf(a + b) == CallsOf(a) + CallsOf(b)
    ensures MachineEventsOf(a + b) == MachineEventsOf(a) + MachineEventsOf(b)
  {
    ProgressAppend(a, b);
    CompletionsAppend(a, b);
    CallsAppend(a, b);
    MachineEventsAppend(a, b);
  }

  /** Lifted machine notifications carry nothing but machine notifications. */
  lemma {:induction false} LiftFilters(events: seq<Event>)
    ensures ProgressOf(Lift(events)) == [] && CompletionsOf(Lift(events)) == []
    ensures CallsOf(Lift(events)) == [] && MachineEventsOf(Lift(events)) == events
  {
    if events != [] {
      LiftFilters(events[1..]);
      assert Lift(events)[1..] == Lift(events[1..]);
    }
  }

  datatype Request = Request(manager: StopManager, started: bool)

  /** `safe_stop_recording`: a request while a stop is in progress is
      dropped; otherwise the flag is set and a worker is started. */
  function SafeStopRecording(s: StopManager, collaborators: Collaborators): (r: Request)
    ensures s.stopInProgress ==> r == Request(s, false)
    ensures !s.stopInProgress ==> r.started && r.manager.stopInProgress
    ensures r.started ==> r.manager.worker == Some(collaborators)
  {
    if s.stopInProgress then Request(s, false)
    else Request(StopManager(true, Some(collaborators)), true)
  }

  datatype WorkerRun = WorkerRun(manager: StopManager, machine: Machine, trace: seq<StopEvent>)

  /** The exit path of a step that raised: report the failure, complete
      with `False`, leave the machine alone. */
  function Abort(m: Machine, soFar: seq<StopEvent>, reason: string): WorkerRun {
    WorkerRun(NewStopManager(), m, soFar + [Progress(FailedMessage(reason)), Completed(false)])
  }

  /** `_safe_stop_worker`: the steps in order, any raising call abandoning
      the rest, and the busy flag cleared on every exit. */
  function RunStopWorker(s: StopManager, m: Machine, outcomes: StepOutcomes, hooks: HookResults): (r: WorkerRun)
    ensures s.worker.None? ==> r == WorkerRun(s, m, [])
    ensures s.worker.Some? ==> r.manager == NewStopManager()
    ensures r.machine == m || r.machine == TransitionTo(m, Preview, false, hooks).machine
  {
    match s.worker
    case None => WorkerRun(s, m, [])
    case Some(c) =>
      if c.hasEncoder && outcomes.drain.Raised? then Abort(m, DrainStage(c), outcomes.drain.message)
      else if c.hasEncoder && outcomes.finalize.Raised? then Abort(m, FinalizeStage(c), outcomes.finalize.message)
      else if c.hasCamera && outcomes.cameraStop.Raised? then Abort(m, CameraStage(c), outcomes.cameraStop.message)
      else
        var a := TransitionTo(m, Preview, false, hooks);
        WorkerRun(NewStopManager(), a.machine, FinishedTrace(c, a))
  }

  /** The trace of a run whose collaborator calls all returned: every step,
      the transition to Preview, and its result. */
  function FinishedTrace(c: Collaborators, a: Attempt): seq<StopEvent> {
    CameraStage(c) + [Progress(ReturningMessage)] + Lift(a.events)
    + [Progress(if a.success then ReadyMessage else ErrorsMessage), Completed(a.success)]
  }

  /** No collaborator call that is actually made raises. */
  predicate StepsSucceed(c: Collaborators, outcomes: StepOutcomes) {
    && (c.hasEncoder ==> outcomes.drain.Returned? && outcomes.finalize.Returned?)
    && (c.hasCamera ==> outcomes.cameraStop.Returned?)
  }

  /** The calls an uninterrupted run makes: only to collaborators that are present. */
  function ExpectedCalls(c: Collaborators): seq<Call> {
    (if c.hasEncoder then [DrainEncoder, FinalizeRecording] else [])
    + (if c.hasCamera then [StopCameraRecording] else [])
  }

  /** The trace up to and including the first, second and third
      collaborator step. */
  function DrainStage(c: Collaborators): seq<StopEvent> {
    [Progress(StoppingMessage), Progress(DrainingMessage)] + (if c.hasEncoder then [Called(DrainEncoder)] else [])
  }

  function FinalizeStage(c: Collaborators): seq<StopEvent> {
    DrainStage(c) + [Progress(FinalizingFileMessage)] + (if c.hasEncoder then [Called(FinalizeRecording)] else [])
  }

  function CameraStage(c: Collaborators): seq<StopEvent> {
    FinalizeStage(c) + [Progress(FinalizingCameraMessage)]
    + (if c.hasCamera then [Called(StopCameraRecording)] else [])
  }

  /** What one event contributes to each filter. */
  lemma SingleFilters(e: StopEvent)
    ensures ProgressOf([e]) == (if e.Progress? then [e.message] else [])
    ensures CompletionsOf([e]) == (if e.Completed? then [e.success] else [])
    ensures CallsOf([e]) == (if e.Called? then [e.call] else [])
    ensures MachineEventsOf([e]) == (if e.MachineEvent? then [e.event] else [])
  {
    assert [e][1..] == [];
  }

  /** Appending an optional call adds at most that call. */
  lemma OptionalCallFilters(t: seq<StopEvent>, present: bool, call: Call)
    ensures var u := t + (if present then [Called(call)] else []);
      && ProgressOf(u) == ProgressOf(t) && CompletionsOf(u) == CompletionsOf(t)
      && MachineEventsOf(u) == MachineEventsOf(t)
      && CallsOf(u) == CallsOf(t) + (if present then [call] else [])
  {
    if present {
      TraceAppend(t, [Called(call)]);
      SingleFilters(Called(call));
    } else {
      assert t + [] == t;
    }
  }

  /** Appending a progress message adds just that message. */
  lemma ProgressStepFilters(t: seq<StopEvent>, message: string)
    ensures var u := t + [Progress(message)];
      && ProgressOf(u) == ProgressOf(t) + [message] && CompletionsOf(u) == CompletionsOf(t)
      && MachineEventsOf(u) == MachineEventsOf(t) && CallsOf(u) == CallsOf(t)
  {
    TraceAppend(t, [Progress(message)]);
    SingleFilters(Progress(message));
  }

  /** Each step message extends the ones before it. */
  lemma StepPrefixes()
    ensures StepMessages[..2] == [StoppingMessage, DrainingMessage]
    ensures StepMessages[..3] == StepMessages[..2] + [FinalizingFileMessage]
    ensures StepMessages[..4] == StepMessages[..3] + [FinalizingCameraMessage]
    ensures StepMessages == StepMessages[..4] + [ReturningMessage]
  {
  }

  lemma DrainStageFilters(c: Collaborators)
    ensures ProgressOf(DrainStage(c)) == StepMessages[..2]
    ensures CompletionsOf(DrainStage(c)) == [] && MachineEventsOf(DrainStage(c)) == []
    ensures CallsOf(DrainStage(c)) == if c.hasEncoder then [DrainEncoder] else []
  {
    StepPrefixes();
    ProgressStepFilters([], StoppingMessage);
    assert [] + [Progress(StoppingMessage)] == [Progress(StoppingMessage)];
    ProgressStepFilters([Progress(StoppingMessage)], DrainingMessage);
    OptionalCallFilters([Progress(StoppingMessage), Progress(DrainingMessage)], c.hasEncoder, DrainEncoder);
  }

  lemma FinalizeStageFilters(c: Collaborators)
    ensures ProgressOf(FinalizeStage(c)) == StepMessages[..3]
    ensures CompletionsOf(FinalizeStage(c)) == [] && MachineEventsOf(FinalizeStage(c)) == []
    ensures CallsOf(FinalizeStage(c)) == if c.hasEncoder then [DrainEncoder, FinalizeRecording] else []
  {
    StepPrefixes();
    DrainStageFilters(c);
    ProgressStepFilters(DrainStage(c), FinalizingFileMessage);
    OptionalCallFilters(DrainStage(c) + [Progress(FinalizingFileMessage)], c.hasEncoder, FinalizeRecording);
  }

  lemma CameraStageFilters(c: Collaborators)
    ensures ProgressOf(CameraStage(c)) == StepMessages[..4]
    ensures CompletionsOf(CameraStage(c)) == [] && MachineEventsOf(CameraStage(c)) == []
    ensures CallsOf(CameraStage(c)) == ExpectedCalls(c)
  {
    StepPrefixes();
    FinalizeStageFilters(c);
    ProgressStepFilters(FinalizeStage(c), FinalizingCameraMessage);
    OptionalCallFilters(FinalizeStage(c) + [Progress(FinalizingCameraMessage)], c.hasCamera, StopCameraRecording);
  }

  /** The last two events of a run, and what they contribute. */
  lemma EndingFilters(prefix: seq<StopEvent>, message: string, success: bool)
    ensures var t := prefix + [Progress(message), Completed(success)];
      && ProgressOf(t) == ProgressOf(prefix) + [message]
      && CompletionsOf(t) == CompletionsOf(prefix) + [success]
      && CallsOf(t) == CallsOf(prefix)
      && MachineEventsOf(t) == MachineEventsOf(prefix)
      && t[|t| - 1] == Completed(success)
  {
    ProgressStepFilters(prefix, message);
    TraceAppend(prefix + [Progress(message)], [Completed(success)]);
    SingleFilters(Completed(success));
    assert prefix + [Progress(message), Completed(success)] == prefix + [Progress(message)] + [Completed(success)];
  }

  /** An uninterrupted run reports every step in order, then drives the
      machine back to Preview and completes with that transition's result,
      announced as "Ready" or "Stop completed with errors". */
  lemma WorkerRunsAllSteps(s: StopManager, m: Machine, outcomes: StepOutcomes, hooks: HookResults)
    requires s.worker.Some? && StepsSucceed(s.worker.value, outcomes)
    ensures var r := RunStopWorker(s, m, outcomes, hooks);
      var a := TransitionTo(m, Preview, false, hooks);
      && ProgressOf(r.trace) == StepMessages + [if a.success then ReadyMessage else ErrorsMessage]
      && CompletionsOf(r.trace) == [a.success]
      && r.trace[|r.trace| - 1] == Completed(a.success)
      && CallsOf(r.trace) == ExpectedCalls(s.worker.value)
      && MachineEventsOf(r.trace) == a.events
      && r.machine == a.machine
  {
    RunFinishes(s, m, outcomes, hooks);
    FinishedTraceFilters(s.worker.value, TransitionTo(m, Preview, false, hooks));
  }

  /** With every collaborator call returning, the run ends with the
      transition to Preview. */
  lemma RunFinishes(s: StopManager, m: Machine, outcomes: StepOutcomes, hooks: HookResults)
    requires s.worker.Some? && StepsSucceed(s.worker.value, outcomes)
    ensures var a := TransitionTo(m, Preview, false, hooks);
      RunStopWorker(s, m, outcomes, hooks) == WorkerRun(NewStopManager(), a.machine, FinishedTrace(s.worker.value, a))
  {
  }

  /** What the trace of an uninterrupted run reports. */
  lemma FinishedTraceFilters(c: Collaborators, a: Attempt)
    ensures var t := FinishedTrace(c, a);
      && ProgressOf(t) == StepMessages + [if a.success then ReadyMessage else ErrorsMessage]
      && CompletionsOf(t) == [a.success]
      && t[|t| - 1] == Completed(a.success)
      && CallsOf(t) == ExpectedCalls(c)
      && MachineEventsOf(t) == a.events
  {
    var t4 := CameraStage(c) + [Progress(ReturningMessage)] + Lift(a.events);
    CameraStageFilters(c);
    ProgressStepFilters(CameraStage(c), ReturningMessage);
    TraceAppend(CameraStage(c) + [Progress(ReturningMessage)], Lift(a.events));
    LiftFilters(a.events);
    EndingFilters(t4, if a.success then ReadyMessage else ErrorsMessage, a.success);
    StepPrefixes();
  }

  /** What an abort after the first `k` step messages reports. */
  lemma AbortFilters(m: Machine, soFar: seq<StopEvent>, reason: string, k: nat)
    requires 2 <= k <= 4 && ProgressOf(soFar) == StepMessages[..k]
    requires CompletionsOf(soFar) == [] && MachineEventsOf(soFar) == []
    ensures var r := Abort(m, soFar, reason);
      && r.machine == m
      && CompletionsOf(r.trace) == [false]
      && r.trace[|r.trace| - 1] == Completed(false)
      && MachineEventsOf(r.trace) == []
      && ProgressOf(r.trace) == StepMessages[..k] + [FailedMessage(reason)]
      && CallsOf(r.trace) == CallsOf(soFar)
  {
    EndingFilters(soFar, FailedMessage(reason), false);
  }

  /** A raising collaborator call abandons the remaining steps: the run
      reports "Stop failed: ..." with the first raised message and completes
      with `False`, no later collaborator is called, and the machine is
      never asked to return to Preview.  The drain is tried first, then the
      file finalization, then the camera. */
  lemma WorkerStepFailureAborts(s: StopManager, m: Machine, outcomes: StepOutcomes, hooks: HookResults)
    requires s.worker.Some? && !StepsSucceed(s.worker.value, outcomes)
    ensures var r := RunStopWorker(s, m, outcomes, hooks);
      && r.machine == m
      && CompletionsOf(r.trace) == [false]
      && r.trace[|r.trace| - 1] == Completed(false)
      && MachineEventsOf(r.trace) == []
      && exists k, reason :: 2 <= k <= 4 && ProgressOf(r.trace) == StepMessages[..k] + [FailedMessage(reason)]
    ensures var c := s.worker.value; var r := RunStopWorker(s, m, outcomes, hooks);
      c.hasEncoder && outcomes.drain.Raised? ==>
        && ProgressOf(r.trace) == StepMessages[..2] + [FailedMessage(outcomes.drain.message)]
        && CallsOf(r.trace) == [DrainEncoder]
    ensures var c := s.worker.value; var r := RunStopWorker(s, m, outcomes, hooks);
      c.hasEncoder && outcomes.drain.Returned? && outcomes.finalize.Raised? ==>
        && ProgressOf(r.trace) == StepMessages[..3] + [FailedMessage(outcomes.finalize.message)]
        && CallsOf(r.trace) == [DrainEncoder, FinalizeRecording]
    ensures var c := s.worker.value; var r := RunStopWorker(s, m, outcomes, hooks);
      (c.hasEncoder ==> outcomes.drain.Returned? && outcomes.finalize.Returned?) ==>
        && c.hasCamera && outcomes.cameraStop.Raised?
        && ProgressOf(r.trace) == StepMessages[..4] + [FailedMessage(outcomes.cameraStop.message)]
        && CallsOf(r.trace) == ExpectedCalls(c)
  {
    var c := s.worker.value;
    if c.hasEncoder && outcomes.drain.Raised? {
      DrainStageFilters(c);
      AbortFilters(m, DrainStage(c), outcomes.drain.message, 2);
    } else if c.hasEncoder && outcomes.finalize.Raised? {
      FinalizeStageFilters(c);
      AbortFilters(m, FinalizeStage(c), outcomes.finalize.message, 3);
    } else {
      CameraStageFilters(c);
      AbortFilters(m, CameraStage(c), outcomes.cameraStop.message, 4);
    }
  }

  /** `safe_stop_recording` of the variant without the UI toolkit: it runs
      in the caller, reports two progress messages and completes with the
      result of the transition to Preview; the flag is clear again after. */
  function SafeStopSynchronous(s: StopManager, m: Machine, hooks: HookResults): (r: WorkerRun)
    ensures s.stopInProgress ==> r == WorkerRun(s, m, [])
    ensures !s.stopInProgress ==>
              && r.manager == s
              && ProgressOf(r.trace) == [StoppingMessage, "Finalizing..."]
              && CompletionsOf(r.trace) == [TransitionTo(m, Preview, false, hooks).success]
              && r.machine == TransitionTo(m, Preview, false, hooks).machine
  {
    if s.stopInProgress then WorkerRun(s, m, [])
    else
      var a := TransitionTo(m, Preview, false, hooks);
      var head := [Progress(StoppingMessage), Progress("Finalizing...")];
      TraceAppend(head, Lift(a.events));
      TraceAppend(head + Lift(a.events), [Completed(a.success)]);
      LiftFilters(a.events);
      WorkerRun(s, a.machine, head + Lift(a.events) + [Completed(a.success)])
  }

  // ---------------------------------------------------------------------
  // The busy guard

  lemma RequestKeepsConsistent(s: StopManager, c: Collaborators)
    requires Consistent(s)
    ensures Consistent(SafeStopRecording(s, c).manager)
  {
  }

  lemma WorkerKeepsConsistent(s: StopManager, m: Machine, outcomes: StepOutcomes, hooks: HookResults)
    requires Consistent(s)
    ensures Consistent(RunStopWorker(s, m, outcomes, hooks).manager)
  {
  }

  /** At most one run at a time: once a request starts a worker, further
      requests are dropped until that worker has finished, whatever its
      outcome, after which a request starts a new run. */
  lemma AtMostOneRun(s: StopManager, m: Machine, first: Collaborators, second: Collaborators,
                     outcomes: StepOutcomes, hooks: HookResults)
    requires Consistent(s) && !s.stopInProgress
    ensures var r1 := SafeStopRecording(s, first);
      && r1.started
      && !SafeStopRecording(r1.manager, second).started
      && SafeStopRecording(r1.manager, second).manager == r1.manager
      && var w := RunStopWorker(r1.manager, m, outcomes, hooks);
         && !w.manager.stopInProgress
         && |CompletionsOf(w.trace)| == 1
         && SafeStopRecording(w.manager, second).started
  {
    var r1 := SafeStopRecording(s, first);
    if StepsSucceed(first, outcomes) {
      WorkerRunsAllSteps(r1.manager, m, outcomes, hooks);
    } else {
      WorkerStepFailureAborts(r1.manager, m, outcomes, hooks);
    }
  }

  // ---------------------------------------------------------------------
  // Where the stop lands

  /** No handler raises on the way back to Preview. */
  predicate QuietHooks(hooks: HookResults) {
    hooks.transitionHook.Returned? && hooks.entryHook.Returned?
  }

  /** Started from Stopping, an uninterrupted stop lands in Preview with the
      watchdog running and completes with `True`. */
  lemma StopFromStoppingReachesPreview(s: StopManager, m: Machine, outcomes: StepOutcomes, hooks: HookResults)
    requires s.worker.Some? && StepsSucceed(s.worker.value, outcomes) && QuietHooks(hooks)
    requires m.mode == Stopping
    ensures var r := RunStopWorker(s, m, outcomes, hooks);
      && r.machine.mode == Preview && r.machine.watchdog == Armed && r.machine.retryCount == 0
      && CompletionsOf(r.trace) == [true]
      && ProgressOf(r.trace) == StepMessages + [ReadyMessage]
  {
    WorkerRunsAllSteps(s, m, outcomes, hooks);
    TransitionCommits(m, Preview, false, hooks);
  }

  /** Recording to Preview is not in the table, so a stop started directly
      from Recording leaves the machine in Recording and completes with
      `False`, announced as "Stop completed with errors". */
  lemma StopFromRecordingFails(s: StopManager, m: Machine, outcomes: StepOutcomes, hooks: HookResults)
    requires s.worker.Some? && StepsSucceed(s.worker.value, outcomes)
    requires m.mode == Recording
    ensures var r := RunStopWorker(s, m, outcomes, hooks);
      && r.machine == m
      && CompletionsOf(r.trace) == [false]
      && ProgressOf(r.trace) == StepMessages + [ErrorsMessage]
      && MachineEventsOf(r.trace) == []
  {
    WorkerRunsAllSteps(s, m, outcomes, hooks);
    IllegalTransitionRejected(m, Preview, hooks);
  }

  /** From a fresh machine: Preview, Recording, Stopping, then a stop with
      both collaborators succeeding ends in Preview with `True`. */
  lemma RecordThenStop(hooks: HookResults, outcomes: StepOutcomes)
    requires outcomes == StepOutcomes(Returned, Returned, Returned)
    ensures var m := Run(Init(), [Transition(Preview, false, hooks), Transition(Recording, false, hooks),
                                  Transition(Stopping, false, hooks)]).machine;
      var req := SafeStopRecording(NewStopManager(), Collaborators(true, true));
      var r := RunStopWorker(req.manager, m, outcomes, hooks);
      && m.mode == Stopping
      && req.started
      && r.machine.mode == Preview
      && CompletionsOf(r.trace) == [true]
      && ProgressOf(r.trace) == StepMessages + [ReadyMessage]
      && CallsOf(r.trace) == [DrainEncoder, FinalizeRecording, StopCameraRecording]
  {
    var cs := [Transition(Preview, false, hooks), Transition(Recording, false, hooks),
               Transition(Stopping, false, hooks)];
    var m0 := Init();
    var m1 := TransitionTo(m0, Preview, false, hooks);
    var m2 := TransitionTo(m1.machine, Recording, false, hooks);
    var m3 := TransitionTo(m2.machine, Stopping, false, hooks);
    assert m1.machine.mode == Preview && m1.machine.handlers == m0.handlers;
    assert m2.machine.mode == Recording && m2.machine.handlers == m0.handlers;
    assert m3.machine.mode == Stopping && m3.machine.handlers == m0.handlers;
    assert Run(m3.machine, []) == Step(m3.machine, []);
    assert Run(m2.machine, cs[2..]).machine == m3.machine;
    assert Run(m1.machine, cs[1..]).machine == m3.machine;
    var m := Run(Init(), cs).machine;
    assert m == m3.machine;
    var req := SafeStopRecording(NewStopManager(), Collaborators(true, true));
    WorkerRunsAllSteps(req.manager, m, outcomes, hooks);
    TransitionCommits(m, Preview, false, hooks);
  }

  // ---------------------------------------------------------------------
  // A stop requested while Recording

  /** The worker as the sequence evidently intends it: a stop requested
      while Recording first enters Stopping, the only mode through which the
      table lets Recording reach Preview, then runs the steps as before. */
  function RunStopWorkerViaStopping(s: StopManager, m: Machine, outcomes: StepOutcomes, hooks: HookResults)
    : (r: WorkerRun)
    ensures m.mode != Recording || s.worker.None? ==> r == RunStopWorker(s, m, outcomes, hooks)
    ensures s.worker.Some? ==> r.manager == NewStopManager()
  {
    if s.worker.Some? && m.mode == Recording then
      var entered := TransitionTo(m, Stopping, false, hooks);
      var w := RunStopWorker(s, entered.machine, outcomes, hooks);
      WorkerRun(w.manager, w.machine, Lift(entered.events) + w.trace)
    else RunStopWorker(s, m, outcomes, hooks)
  }

  /** With the correction, an uninterrupted stop started from Recording
      lands in Preview and completes with `True`, where the sequence as
      written completes with `False` (`StopFromRecordingFails`). */
  lemma StopFromRecordingViaStopping(s: StopManager, m: Machine, outcomes: StepOutcomes, hooks: HookResults)
    requires s.worker.Some? && StepsSucceed(s.worker.value, outcomes) && QuietHooks(hooks)
    requires m.mode == Recording
    ensures var r := RunStopWorkerViaStopping(s, m, outcomes, hooks);
      && r.machine.mode == Preview && r.machine.watchdog == Armed
      && CompletionsOf(r.trace) == [true]
      && ProgressOf(r.trace) == StepMessages + [ReadyMessage]
      && CallsOf(r.trace) == ExpectedCalls(s.worker.value)
  {
    var entered := TransitionTo(m, Stopping, false, hooks);
    TransitionCommits(m, Stopping, false, hooks);
    var w := RunStopWorker(s, entered.machine, outcomes, hooks);
    StopFromStoppingReachesPreview(s, entered.machine, outcomes, hooks);
    WorkerRunsAllSteps(s, entered.machine, outcomes, hooks);
    LiftFilters(entered.events);
    TraceAppend(Lift(entered.events), w.trace);
  }
}
