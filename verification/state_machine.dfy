/** The camera operating-mode state machine of cineluck/state/machine.py.

    The machine is an immutable record and every public operation is a pure
    step returning the new record together with the notifications it emitted,
    in order.  What the source leaves to threads and callbacks becomes an
    explicit input: the outcome of a registered handler (`HookResult`), the
    firing of the watchdog timer (`WatchdogFires`) and the firing of a
    scheduled recovery timer (`RecoveryFires`). */
module StateMachine {
  import opened Seqs

  datatype Mode = Idle | Preview | Recording | Stopping | Error

  /** The legal ordinary (non-forced) moves out of each mode. */
  function Successors(m: Mode): set<Mode> {
    match m
    case Idle => {Preview, Error}
    case Preview => {Recording, Idle, Error}
    case Recording => {Stopping, Error}
    case Stopping => {Preview, Idle, Error}
    case Error => {Idle, Preview}
  }

  /** Auto-recovery is scheduled only while the retry count is at most this. */
  const MaxRetries: nat := 3

  /** The watchdog reference the machine holds: none, a running timer, or a
      timer that has already fired but is still referenced (the source never
      clears the reference when the timer fires). */
  datatype Timer = NoTimer | Armed | Spent

  /** The modes in which a committed transition arms the watchdog. */
  predicate Supervised(m: Mode) {
    m == Preview || m == Recording
  }

  /** Registered handlers are opaque callables; only which key holds one
      matters to the machine, the last registration for a key winning. */
  type HandlerId = nat

  datatype Handlers = Handlers(
    onTransition: map<(Mode, Mode), HandlerId>,
    onEntry: map<Mode, HandlerId>)

  datatype Machine = Machine(
    mode: Mode,
    retryCount: nat,
    watchdog: Timer,
    pendingRecoveries: nat,
    handlers: Handlers)

  /** What a registered handler does when it is called. */
  datatype HookResult = Returned | Raised(message: string)

  /** The outcomes the (old, new) transition handler and the entry handler
      of the new mode would have if they were called. */
  datatype HookResults = HookResults(transitionHook: HookResult, entryHook: HookResult)

  /** Notifications to subscribers, and calls into registered handlers. */
  datatype Event =
    | StateChanged(newMode: Mode, oldMode: Mode)
    | ErrorOccurred(message: string)
    | TransitionHandlerCalled(from: Mode, to: Mode)
    | EntryHandlerCalled(entered: Mode)

  datatype Step = Step(machine: Machine, events: seq<Event>)

  /** A step of `transition_to`, which also reports success. */
  datatype Attempt = Attempt(machine: Machine, events: seq<Event>, success: bool)

  /** The state-changed notifications of a trace, in order. */
  function ChangesOf(events: seq<Event>): (r: seq<Event>)
    ensures forall k :: 0 <= k < |r| ==> r[k].StateChanged? && r[k] in events
  {
    if events == [] then []
    else (if events[0].StateChanged? then [events[0]] else []) + ChangesOf(events[1..])
  }

  /** The messages of the error notifications of a trace, in order. */
  function ErrorsOf(events: seq<Event>): (r: seq<string>)
    ensures |r| <= |events|
  {
    if events == [] then []
    else (if events[0].ErrorOccurred? then [events[0].message] else []) + ErrorsOf(events[1..])
  }

  /** The handler calls of a trace, in order. */
  function HandlerCallsOf(events: seq<Event>): (r: seq<Event>)
    ensures forall k :: 0 <= k < |r| ==> r[k] in events && !r[k].StateChanged? && !r[k].ErrorOccurred?
  {
    if events == [] then []
    else
      (if events[0].TransitionHandlerCalled? || events[0].EntryHandlerCalled? then [events[0]] else [])
      + HandlerCallsOf(events[1..])
  }

  lemma {:induction false} ChangesAppend(a: seq<Event>, b: seq<Event>)
    ensures ChangesOf(a + b) == ChangesOf(a) + ChangesOf(b)
  {
    if a == [] {
      assert a + b == b;
    } else {
      assert (a + b)[1..] == a[1..] + b;
      ChangesAppend(a[1..], b);
      assert (a + b)[0] == a[0];
      AppendAssoc(if a[0].StateChanged? then [a[0]] else [], ChangesOf(a[1..]), ChangesOf(b));
    }
  }

  lemma {:induction false} ErrorsAppend(a: seq<Event>, b: seq<Event>)
    ensures ErrorsOf(a + b) == ErrorsOf(a) + ErrorsOf(b)
  {
    if a == [] {
      assert a + b == b;
    } else {
      assert (a + b)[1..] == a[1..] + b;
      ErrorsAppend(a[1..], b);
      assert (a + b)[0] == a[0];
      AppendAssoc(if a[0].ErrorOccurred? then [a[0].message] else [], ErrorsOf(a[1..]), ErrorsOf(b));
    }
  }

  lemma {:induction false} CallsAppend(a: seq<Event>, b: seq<Event>)
    ensures HandlerCallsOf(a + b) == HandlerCallsOf(a) + HandlerCallsOf(b)
  {
    if a == [] {
      assert a + b == b;
    } else {
      assert (a + b)[1..] == a[1..] + b;
      CallsAppend(a[1..], b);
      assert (a + b)[0] == a[0];
      AppendAssoc(if a[0].TransitionHandlerCalled? || a[0].EntryHandlerCalled? then [a[0]] else [], HandlerCallsOf(a[1..]), HandlerCallsOf(b));
    }
  }

  /** Filtering a trace distributes over concatenation. */
  lemma FiltersAppend(a: seq<Event>, b: seq<Event>)
    ensures ChangesOf(a + b) == ChangesOf(a) + ChangesOf(b)
    ensures ErrorsOf(a + b) == ErrorsOf(a) + ErrorsOf(b)
    ensures HandlerCallsOf(a + b) == HandlerCallsOf(a) + HandlerCallsOf(b)
  {
    ChangesAppend(a, b);
    ErrorsAppend(a, b);
    CallsAppend(a, b);
  }

  /** The machine as the constructor leaves it. */
  function Init(): Machine {
    Machine(Idle, 0, NoTimer, 0, Handlers(map[], map[]))
  }

  /** `can_transition_to`: the target is in the table row of the current mode. */
  predicate CanTransitionTo(m: Machine, target: Mode)
    ensures CanTransitionTo(m, target) ==> target != m.mode
    ensures target == Error ==> (CanTransitionTo(m, target) <==> m.mode != Error)
    ensures target == Recording ==> (CanTransitionTo(m, target) <==> m.mode == Preview)
    ensures target == Stopping ==> (CanTransitionTo(m, target) <==> m.mode == Recording)
    ensures m.mode == Recording ==> (CanTransitionTo(m, target) <==> target == Stopping || target == Error)
  {
    target in Successors(m.mode)
  }

  function RegisterTransitionHandler(m: Machine, from: Mode, to: Mode, id: HandlerId): (r: Machine)
    ensures r.handlers.onTransition.Keys == m.handlers.onTransition.Keys + {(from, to)}
    ensures r.handlers.onTransition[(from, to)] == id
    ensures forall k :: k in m.handlers.onTransition && k != (from, to) ==>
              r.handlers.onTransition[k] == m.handlers.onTransition[k]
    ensures r == m.(handlers := Handlers(r.handlers.onTransition, m.handlers.onEntry))
  {
    m.(handlers := m.handlers.(onTransition := m.handlers.onTransition[(from, to) := id]))
  }

  function RegisterStateHandler(m: Machine, mode: Mode, id: HandlerId): (r: Machine)
    ensures r.handlers.onEntry.Keys == m.handlers.onEntry.Keys + {mode}
    ensures r.handlers.onEntry[mode] == id
    ensures forall k :: k in m.handlers.onEntry && k != mode ==> r.handlers.onEntry[k] == m.handlers.onEntry[k]
    ensures r == m.(handlers := Handlers(m.handlers.onTransition, r.handlers.onEntry))
  {
    m.(handlers := m.handlers.(onEntry := m.handlers.onEntry[mode := id]))
  }

  /** `_stop_watchdog` followed by arming a fresh timer in the supervised modes. */
  function StartWatchdog(m: Machine): (r: Machine)
    ensures r.watchdog == Armed <==> Supervised(m.mode)
    ensures r.watchdog != Spent
    ensures r.(watchdog := m.watchdog) == m
  {
    m.(watchdog := if Supervised(m.mode) then Armed else NoTimer)
  }

  /** `_handle_error`: report the message, count the retry, move to Error
      (announcing it with the already-overwritten mode as the old one), and
      schedule a recovery while the count is within the bound.  The
      watchdog reference is left as it was. */
  function HandleError(m: Machine, message: string): (r: Step)
    ensures ErrorsOf(r.events) == [message] && r.events[0] == ErrorOccurred(message)
    ensures ChangesOf(r.events) == if m.mode == Error then [] else [StateChanged(Error, Error)]
    ensures HandlerCallsOf(r.events) == []
    ensures r.machine.mode == Error
    ensures r.machine.retryCount == m.retryCount + 1
    ensures r.machine.pendingRecoveries
              == m.pendingRecoveries + (if m.retryCount + 1 <= MaxRetries then 1 else 0)
    ensures r.machine.watchdog == m.watchdog && r.machine.handlers == m.handlers
  {
    var counted := m.(retryCount := m.retryCount + 1);
    var moved :=
      if m.mode != Error then Step(counted.(mode := Error), [StateChanged(Error, Error)])
      else Step(counted, []);
    var scheduled :=
      if counted.retryCount <= MaxRetries
      then moved.machine.(pendingRecoveries := moved.machine.pendingRecoveries + 1)
      else moved.machine;
    FiltersAppend([ErrorOccurred(message)], moved.events);
    Step(scheduled, [ErrorOccurred(message)] + moved.events)
  }

  /** A (old, target) transition handler is registered and raises. */
  predicate TransitionHookRaises(m: Machine, target: Mode, hooks: HookResults) {
    (m.mode, target) in m.handlers.onTransition && hooks.transitionHook.Raised?
  }

  /** An entry handler for the target is registered and raises. */
  predicate EntryHookRaises(m: Machine, target: Mode, hooks: HookResults) {
    target in m.handlers.onEntry && hooks.entryHook.Raised?
  }

  /** `transition_to(target, force)`. */
  function TransitionTo(m: Machine, target: Mode, force: bool, hooks: HookResults): (r: Attempt)
    ensures r.machine.handlers == m.handlers
    ensures r.machine.mode == target || r.machine.mode == m.mode || r.machine.mode == Error
    ensures r.success ==> r.machine.mode == target
  {
    var from := m.mode;
    if !force && !CanTransitionTo(m, target) then
      Attempt(m, [], false)
    else
      var transitionCall :=
        if (from, target) in m.handlers.onTransition then [TransitionHandlerCalled(from, target)] else [];
      if TransitionHookRaises(m, target, hooks) then
        var e := HandleError(m, "Transition error: " + hooks.transitionHook.message);
        Attempt(e.machine, transitionCall + e.events, false)
      else
        var committed := m.(mode := target, retryCount := if target != Error then 0 else m.retryCount);
        var watched := StartWatchdog(committed);
        var announced := transitionCall + [StateChanged(target, from)];
        if target in m.handlers.onEntry then
          var entered := announced + [EntryHandlerCalled(target)];
          if hooks.entryHook.Raised? then
            var e := HandleError(watched, "State handler error: " + hooks.entryHook.message);
            Attempt(e.machine, entered + e.events, false)
          else
            Attempt(watched, entered, true)
        else
          Attempt(watched, announced, true)
  }

  /** The message a watchdog timeout reports for a supervised mode. */
  function StalledMessage(m: Mode): string
    requires Supervised(m)
  {
    if m == Preview then "Preview stalled - watchdog timeout" else "Recording stalled - watchdog timeout"
  }

  /** The watchdog timer fires (`_watchdog_timeout_handler`).  Only a running
      timer can fire; it raises an error only if the mode is still supervised. */
  function WatchdogFires(m: Machine): (r: Step)
    ensures m.watchdog != Armed ==> r == Step(m, [])
    ensures m.watchdog == Armed && !Supervised(m.mode) ==> r == Step(m.(watchdog := Spent), [])
    ensures m.watchdog == Armed && Supervised(m.mode) ==>
              && r.machine.mode == Error
              && r.machine.watchdog == Spent
              && ErrorsOf(r.events) == [StalledMessage(m.mode)]
              && ChangesOf(r.events) == [StateChanged(Error, Error)]
  {
    if m.watchdog != Armed then Step(m, [])
    else
      var fired := m.(watchdog := Spent);
      if Supervised(m.mode) then HandleError(fired, StalledMessage(m.mode))
      else Step(fired, [])
  }

  /** `reset_watchdog`: restart the timer only when a reference is held. */
  function ResetWatchdog(m: Machine): (r: Machine)
    ensures m.watchdog == NoTimer ==> r == m
    ensures m.watchdog != NoTimer ==> (r.watchdog == Armed <==> Supervised(m.mode))
    ensures r.(watchdog := m.watchdog) == m
  {
    if m.watchdog != NoTimer then StartWatchdog(m) else m
  }

  /** A scheduled recovery timer fires (`_attempt_recovery`): a forced move
      to Idle, which runs the handlers like any other transition. */
  function RecoveryFires(m: Machine, hooks: HookResults): (r: Attempt)
    ensures m.pendingRecoveries == 0 ==> r == Attempt(m, [], false)
    ensures m.pendingRecoveries > 0 ==>
              r == TransitionTo(m.(pendingRecoveries := m.pendingRecoveries - 1), Idle, true, hooks)
  {
    if m.pendingRecoveries == 0 then Attempt(m, [], false)
    else TransitionTo(m.(pendingRecoveries := m.pendingRecoveries - 1), Idle, true, hooks)
  }

  /** A firing with no handler raising on the way into Idle consumes one
      scheduled recovery and lands in Idle with the retry count cleared, no
      timer, one announcement from the previous mode, and success. */
  lemma RecoveryResetsToIdle(m: Machine, hooks: HookResults)
    requires m.pendingRecoveries > 0
    requires !TransitionHookRaises(m, Idle, hooks) && !EntryHookRaises(m, Idle, hooks)
    ensures var r := RecoveryFires(m, hooks);
      && r.success
      && r.machine.mode == Idle
      && r.machine.retryCount == 0
      && r.machine.pendingRecoveries == m.pendingRecoveries - 1
      && r.machine.watchdog == NoTimer
      && r.machine.handlers == m.handlers
      && ChangesOf(r.events) == [StateChanged(Idle, m.mode)]
      && ErrorsOf(r.events) == []
  {
    TransitionCommits(m.(pendingRecoveries := m.pendingRecoveries - 1), Idle, true, hooks);
  }

  /** A raising Idle entry handler defeats the retry bound: the forced move
      clears the retry count before the handler runs, so the error it raises
      is always counted as the first one and schedules the next recovery.
      The firing fails, lands in Error with one retry counted, and leaves
      as many recoveries scheduled as before. */
  lemma RecoveryRetriesRaisingIdleEntry(m: Machine, hooks: HookResults)
    requires m.pendingRecoveries > 0
    requires hooks.transitionHook.Returned? && Idle in m.handlers.onEntry && hooks.entryHook.Raised?
    ensures var r := RecoveryFires(m, hooks);
      && !r.success
      && r.machine.mode == Error
      && r.machine.retryCount == 1
      && r.machine.pendingRecoveries == m.pendingRecoveries
      && r.machine.handlers == m.handlers
      && ErrorsOf(r.events) == ["State handler error: " + hooks.entryHook.message]
  {
    var consumed := m.(pendingRecoveries := m.pendingRecoveries - 1);
    var a := TransitionTo(consumed, Idle, true, hooks);
    assert RecoveryFires(m, hooks) == a;
    EntryHandlerFailure(consumed, Idle, true, hooks);
    assert a.machine.retryCount == 1 <= MaxRetries;
  }

  /** The machine after `n` recovery firings with the same handler outcomes. */
  function RecoverTimes(m: Machine, hooks: HookResults, n: nat): Machine
    decreases n
  {
    if n == 0 then m else RecoveryFires(RecoverTimes(m, hooks, n - 1), hooks).machine
  }

  /** With a raising Idle entry handler, recovery never runs out: after any
      number of firings the machine is in Error with one retry counted and
      still holds every recovery it had scheduled. */
  lemma {:induction false} RaisingIdleEntryRecoversForever(m: Machine, hooks: HookResults, n: nat)
    requires m.pendingRecoveries > 0
    requires hooks.transitionHook.Returned? && Idle in m.handlers.onEntry && hooks.entryHook.Raised?
    ensures var r := RecoverTimes(m, hooks, n);
      && r.pendingRecoveries == m.pendingRecoveries
      && r.handlers == m.handlers
      && (n > 0 ==> r.mode == Error && r.retryCount == 1)
    decreases n
  {
    if n > 0 {
      RaisingIdleEntryRecoversForever(m, hooks, n - 1);
      var before := RecoverTimes(m, hooks, n - 1);
      assert before.pendingRecoveries == m.pendingRecoveries && before.handlers == m.handlers;
      RecoveryRetriesRaisingIdleEntry(before, hooks);
      assert RecoverTimes(m, hooks, n) == RecoveryFires(before, hooks).machine;
    }
  }

  /** `force_idle`: the emergency reset. */
  function ForceIdle(m: Machine): (r: Step)
    ensures r.machine.mode == Idle && r.machine.retryCount == 0 && r.machine.watchdog == NoTimer
    ensures r.machine.pendingRecoveries == m.pendingRecoveries && r.machine.handlers == m.handlers
    ensures r.events == [StateChanged(Idle, m.mode)]
  {
    Step(m.(mode := Idle, retryCount := 0, watchdog := NoTimer), [StateChanged(Idle, m.mode)])
  }

  /** `shutdown`: stop the watchdog, then `force_idle`. */
  function Shutdown(m: Machine): (r: Step)
    ensures r == ForceIdle(m)
  {
    ForceIdle(m.(watchdog := NoTimer))
  }

  // ---------------------------------------------------------------------
  // Properties of single operations

  /** An ordinary request outside the table is refused with nothing changed,
      no handler called and nothing announced. */
  lemma IllegalTransitionRejected(m: Machine, target: Mode, hooks: HookResults)
    requires !CanTransitionTo(m, target)
    ensures TransitionTo(m, target, false, hooks) == Attempt(m, [], false)
  {
  }

  /** Without a raising handler, a legal or forced transition commits the
      target, announces it exactly once with the old mode, resets the retry
      count unless the target is Error, re-arms the watchdog exactly for the
      supervised modes, and reports success. */
  lemma TransitionCommits(m: Machine, target: Mode, force: bool, hooks: HookResults)
    requires force || CanTransitionTo(m, target)
    requires !TransitionHookRaises(m, target, hooks) && !EntryHookRaises(m, target, hooks)
    ensures var r := TransitionTo(m, target, force, hooks);
      && r.success
      && r.machine.mode == target
      && ChangesOf(r.events) == [StateChanged(target, m.mode)]
      && ErrorsOf(r.events) == []
      && r.machine.retryCount == (if target == Error then m.retryCount else 0)
      && (r.machine.watchdog == Armed <==> Supervised(target))
      && r.machine.watchdog != Spent
      && r.machine.pendingRecoveries == m.pendingRecoveries
  {
    var r := TransitionTo(m, target, force, hooks);
    var call := if (m.mode, target) in m.handlers.onTransition then [TransitionHandlerCalled(m.mode, target)] else [];
    FiltersAppend(call, [StateChanged(target, m.mode)]);
    FiltersAppend(call + [StateChanged(target, m.mode)], [EntryHandlerCalled(target)]);
  }

  /** The request succeeds exactly when it is allowed and no registered
      handler raises. */
  lemma TransitionSuccessIff(m: Machine, target: Mode, force: bool, hooks: HookResults)
    ensures TransitionTo(m, target, force, hooks).success
        <==> (force || CanTransitionTo(m, target))
             && !TransitionHookRaises(m, target, hooks)
             && !EntryHookRaises(m, target, hooks)
  {
  }

  /** A raising transition handler stops the target from ever being
      committed: the machine lands in Error through the error path. */
  lemma TransitionHandlerFailure(m: Machine, target: Mode, force: bool, hooks: HookResults)
    requires force || CanTransitionTo(m, target)
    requires TransitionHookRaises(m, target, hooks)
    ensures var r := TransitionTo(m, target, force, hooks);
      && !r.success
      && r.machine.mode == Error
      && ChangesOf(r.events) == (if m.mode == Error then [] else [StateChanged(Error, Error)])
      && ErrorsOf(r.events) == ["Transition error: " + hooks.transitionHook.message]
      && HandlerCallsOf(r.events) == [TransitionHandlerCalled(m.mode, target)]
      && r.machine.retryCount == m.retryCount + 1
      && r.machine.watchdog == m.watchdog
  {
    var r := TransitionTo(m, target, force, hooks);
    var e := HandleError(m, "Transition error: " + hooks.transitionHook.message);
    FiltersAppend([TransitionHandlerCalled(m.mode, target)], e.events);
  }

  /** A raising entry handler comes after the target was committed and
      announced: the machine is then driven to Error and reports failure. */
  lemma EntryHandlerFailure(m: Machine, target: Mode, force: bool, hooks: HookResults)
    requires force || CanTransitionTo(m, target)
    requires !TransitionHookRaises(m, target, hooks) && EntryHookRaises(m, target, hooks)
    ensures var r := TransitionTo(m, target, force, hooks);
      && !r.success
      && r.machine.mode == Error
      && ChangesOf(r.events)
         == [StateChanged(target, m.mode)] + (if target == Error then [] else [StateChanged(Error, Error)])
      && ErrorsOf(r.events) == ["State handler error: " + hooks.entryHook.message]
      && r.machine.retryCount == (if target == Error then m.retryCount else 0) + 1
      && r.machine.pendingRecoveries
         == m.pendingRecoveries + (if r.machine.retryCount <= MaxRetries then 1 else 0)
      && (r.machine.watchdog == Armed <==> Supervised(target))
  {
    var call := if (m.mode, target) in m.handlers.onTransition then [TransitionHandlerCalled(m.mode, target)] else [];
    var entered := call + [StateChanged(target, m.mode)] + [EntryHandlerCalled(target)];
    var committed := m.(mode := target, retryCount := if target != Error then 0 else m.retryCount);
    var watched := StartWatchdog(committed);
    var message := "State handler error: " + hooks.entryHook.message;
    var e := HandleError(watched, message);
    assert TransitionTo(m, target, force, hooks) == Attempt(e.machine, entered + e.events, false);
    EnteredThenFailed(call, m.mode, watched, message);
  }

  /** The trace of an entered mode whose entry handler raised: the one
      announcement of the entry, then the error path's. */
  lemma EnteredThenFailed(call: seq<Event>, from: Mode, watched: Machine, message: string)
    requires ChangesOf(call) == [] && ErrorsOf(call) == []
    ensures var entered := call + [StateChanged(watched.mode, from)] + [EntryHandlerCalled(watched.mode)];
      var e := HandleError(watched, message);
      && ChangesOf(entered + e.events)
         == [StateChanged(watched.mode, from)] + (if watched.mode == Error then [] else [StateChanged(Error, Error)])
      && ErrorsOf(entered + e.events) == [message]
  {
    var entered := call + [StateChanged(watched.mode, from)] + [EntryHandlerCalled(watched.mode)];
    var e := HandleError(watched, message);
    EnteredFilters(call, watched.mode, from);
    FiltersAppend(entered, e.events);
  }

  /** The announcement of an entered mode, between an optional transition
      handler call and the entry handler call. */
  lemma EnteredFilters(call: seq<Event>, target: Mode, from: Mode)
    requires ChangesOf(call) == [] && ErrorsOf(call) == []
    ensures var entered := call + [StateChanged(target, from)] + [EntryHandlerCalled(target)];
      ChangesOf(entered) == [StateChanged(target, from)] && ErrorsOf(entered) == []
  {
    FiltersAppend(call, [StateChanged(target, from)]);
    FiltersAppend(call + [StateChanged(target, from)], [EntryHandlerCalled(target)]);
  }

  /** The error path schedules a recovery exactly while the incremented
      retry count is within the bound: a fourth error in a row is left for
      the caller to resolve. */
  lemma RecoveryScheduledIff(m: Machine, message: string)
    ensures HandleError(m, message).machine.pendingRecoveries > m.pendingRecoveries
        <==> m.retryCount < MaxRetries
  {
  }

  /** `shutdown` and `force_idle` cannot fail and leave the machine in the
      initial mode with no timer and no retries counted, whatever it was. */
  lemma ForceIdleFromAnywhere(m: Machine)
    ensures var r := ForceIdle(m);
      && r.machine.(pendingRecoveries := 0, handlers := Init().handlers) == Init()
      && ChangesOf(r.events) == [StateChanged(Idle, m.mode)]
      && HandlerCallsOf(r.events) == []
  {
  }

  /** The last registration for a key wins. */
  lemma LastRegistrationWins(m: Machine, from: Mode, to: Mode, first: HandlerId, second: HandlerId)
    ensures RegisterTransitionHandler(RegisterTransitionHandler(m, from, to, first), from, to, second)
         == RegisterTransitionHandler(m, from, to, second)
  {
  }

  // ---------------------------------------------------------------------
  // The transition table

  /** Idle or Preview can be reached from `m` in at most `n` ordinary moves. */
  predicate SafeWithin(m: Mode, n: nat)
    decreases n
  {
    m == Idle || m == Preview || (n > 0 && exists t :: t in Successors(m) && SafeWithin(t, n - 1))
  }

  /** No mode is a dead end: every mode reaches Idle or Preview in at most
      two ordinary moves, Recording only by way of Stopping. */
  lemma EveryModeEscapes(m: Mode)
    ensures SafeWithin(m, 2)
    ensures Preview !in Successors(Recording) && Idle !in Successors(Recording)
  {
    assert SafeWithin(Preview, 0) && SafeWithin(Idle, 0) && SafeWithin(Idle, 1);
    assert Idle in Successors(Stopping) && SafeWithin(Stopping, 1);
    assert Stopping in Successors(Recording);
    if m == Recording {
      assert SafeWithin(Recording, 2);
    } else if m == Stopping || m == Error {
      assert Idle in Successors(m);
    }
  }

  // ---------------------------------------------------------------------
  // The invariant every reachable machine keeps

  /** The watchdog runs in exactly the supervised modes, except that the
      error path does not cancel it, so in Error any reference may be held;
      retries are only ever counted while in Error. */
  predicate Valid(m: Machine) {
    && (Supervised(m.mode) ==> m.watchdog == Armed)
    && (m.mode == Idle || m.mode == Stopping ==> m.watchdog == NoTimer)
    && (m.retryCount > 0 ==> m.mode == Error)
  }

  /** Everything that can happen to the machine. */
  datatype Command =
    | Transition(target: Mode, force: bool, hooks: HookResults)
    | RegisterTransition(from: Mode, to: Mode, id: HandlerId)
    | RegisterEntry(mode: Mode, id: HandlerId)
    | WatchdogTimeout
    | RecoveryTimeout(recoveryHooks: HookResults)
    | WatchdogReset
    | EmergencyIdle
    | ShutdownRequest

  function Apply(m: Machine, c: Command): Step {
    match c
    case Transition(target, force, hooks) =>
      var a := TransitionTo(m, target, force, hooks); Step(a.machine, a.events)
    case RegisterTransition(from, to, id) => Step(RegisterTransitionHandler(m, from, to, id), [])
    case RegisterEntry(mode, id) => Step(RegisterStateHandler(m, mode, id), [])
    case WatchdogTimeout => WatchdogFires(m)
    case RecoveryTimeout(hooks) =>
      var a := RecoveryFires(m, hooks); Step(a.machine, a.events)
    case WatchdogReset => Step(ResetWatchdog(m), [])
    case EmergencyIdle => ForceIdle(m)
    case ShutdownRequest => Shutdown(m)
  }

  /** The commands applied in order, with all notifications concatenated. */
  function Run(m: Machine, cs: seq<Command>): Step
    decreases |cs|
  {
    if cs == [] then Step(m, [])
    else
      var first := Apply(m, cs[0]);
      var rest := Run(first.machine, cs[1..]);
      Step(rest.machine, first.events + rest.events)
  }

  lemma InitValid()
    ensures Valid(Init()) && Init().mode == Idle
  {
  }

  /** The error path always lands in a valid machine, even from one whose
      timer has just fired. */
  lemma HandleErrorKeepsValid(m: Machine, message: string)
    ensures Valid(HandleError(m, message).machine)
  {
  }

  lemma TransitionKeepsValid(m: Machine, target: Mode, force: bool, hooks: HookResults)
    requires Valid(m)
    ensures Valid(TransitionTo(m, target, force, hooks).machine)
  {
    if (force || CanTransitionTo(m, target)) && !TransitionHookRaises(m, target, hooks) {
      var committed := m.(mode := target, retryCount := if target != Error then 0 else m.retryCount);
      assert Valid(StartWatchdog(committed));
      if target in m.handlers.onEntry && hooks.entryHook.Raised? {
        HandleErrorKeepsValid(StartWatchdog(committed), "State handler error: " + hooks.entryHook.message);
      }
    } else if !force && !CanTransitionTo(m, target) {
    } else {
      HandleErrorKeepsValid(m, "Transition error: " + hooks.transitionHook.message);
    }
  }

  lemma ApplyKeepsValid(m: Machine, c: Command)
    requires Valid(m)
    ensures Valid(Apply(m, c).machine)
  {
    match c
    case Transition(target, force, hooks) => TransitionKeepsValid(m, target, force, hooks);
    case RecoveryTimeout(hooks) =>
      if m.pendingRecoveries > 0 {
        TransitionKeepsValid(m.(pendingRecoveries := m.pendingRecoveries - 1), Idle, true, hooks);
      }
    case WatchdogTimeout =>
      if m.watchdog == Armed && Supervised(m.mode) {
        HandleErrorKeepsValid(m.(watchdog := Spent), StalledMessage(m.mode));
      }
    case _ =>
  }

  /** Every machine reachable from a valid one keeps the invariant. */
  lemma {:induction false} RunKeepsValid(m: Machine, cs: seq<Command>)
    requires Valid(m)
    ensures Valid(Run(m, cs).machine)
    decreases |cs|
  {
    if cs != [] {
      ApplyKeepsValid(m, cs[0]);
      RunKeepsValid(Apply(m, cs[0]).machine, cs[1..]);
    }
  }

  /** In a reachable machine a stalled supervised mode is always caught: the
      watchdog is running, and its firing reports the stall and moves to
      Error; in Idle and Stopping a firing cannot happen. */
  lemma StallAlwaysDetected(cs: seq<Command>)
    ensures var m := Run(Init(), cs).machine;
      && (Supervised(m.mode) ==>
            var r := WatchdogFires(m);
            r.machine.mode == Error && ErrorsOf(r.events) == [StalledMessage(m.mode)])
      && (m.mode == Idle || m.mode == Stopping ==> WatchdogFires(m) == Step(m, []))
  {
    InitValid();
    RunKeepsValid(Init(), cs);
  }

  // ---------------------------------------------------------------------
  // Bounded auto-recovery

  /** The error path taken once per message, with no transition in between
      (as when a transition handler keeps raising). */
  function RepeatErrors(m: Machine, messages: seq<string>): (r: Step)
    decreases |messages|
  {
    if messages == [] then Step(m, [])
    else
      var first := HandleError(m, messages[0]);
      var rest := RepeatErrors(first.machine, messages[1..]);
      Step(rest.machine, first.events + rest.events)
  }

  function Min(a: int, b: int): int {
    if a <= b then a else b
  }

  /** How many of `k` errors in a row schedule a recovery after `retries`
      earlier ones. */
  function Scheduled(retries: int, k: nat): nat {
    if retries >= MaxRetries then 0 else Min(k, MaxRetries - retries)
  }

  /** The first of `k` errors schedules one recovery while the bound allows;
      the rest behave as `k - 1` errors after one more retry. */
  lemma ScheduledStep(retries: int, k: nat)
    requires k >= 1
    ensures Scheduled(retries, k) == (if retries + 1 <= MaxRetries then 1 else 0) + Scheduled(retries + 1, k - 1)
  {
  }

  /** Consecutive errors schedule recoveries only up to the bound: starting
      from `m`, `k` errors in a row schedule min(k, 3 - retries) of them. */
  lemma {:induction false} RecoveriesAreBounded(m: Machine, messages: seq<string>)
    ensures var r := RepeatErrors(m, messages);
      && r.machine.retryCount == m.retryCount + |messages|
      && r.machine.pendingRecoveries
         == m.pendingRecoveries
            + (if m.retryCount >= MaxRetries then 0 else Min(|messages|, MaxRetries - m.retryCount))
      && (messages != [] ==> r.machine.mode == Error)
    decreases |messages|
  {
    if messages != [] {
      var first := HandleError(m, messages[0]);
      RecoveriesAreBounded(first.machine, messages[1..]);
      ScheduledStep(m.retryCount, |messages|);
    }
  }

  /** Each error in a row is announced once, in order. */
  lemma {:induction false} RepeatedErrorsAnnounced(m: Machine, messages: seq<string>)
    ensures ErrorsOf(RepeatErrors(m, messages).events) == messages
    decreases |messages|
  {
    if messages != [] {
      var first := HandleError(m, messages[0]);
      RepeatedErrorsAnnounced(first.machine, messages[1..]);
      var rest := RepeatErrors(first.machine, messages[1..]);
      FiltersAppend(first.events, rest.events);
      assert messages == [messages[0]] + messages[1..];
    }
  }

  /** From a clean start, the fourth error in a row schedules nothing more. */
  lemma FourthErrorNotRecovered(m: Machine, messages: seq<string>)
    requires m.retryCount == 0 && |messages| == 4
    ensures RepeatErrors(m, messages).machine.pendingRecoveries == m.pendingRecoveries + 3
    ensures RepeatErrors(m, messages[..3]).machine.pendingRecoveries == m.pendingRecoveries + 3
  {
    RecoveriesAreBounded(m, messages);
    RecoveriesAreBounded(m, messages[..3]);
  }
}
