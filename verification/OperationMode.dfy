/** The operation mode transition manager: mode requests, their transition with timeout, failure and
    override, and a window during which older nodes are told the new mode.

    Service calls, reports, responses and timer ticks are atomic events; time, the availability of
    each mode and the completion of the current one are inputs of the events. */
module OperationMode {
  import opened Wrappers
  import opened Compatibility

  datatype ControlRequest = RequestManual | RequestAutonomous

  datatype Transition = Transition(
    time: real, previous: Option<Mode>, engageRequested: bool, engageFailed: bool, engageCompleted: bool)

  /** control: the vehicle reports autonomous control. window: when the older nodes started to be told. */
  datatype Manager = Manager(
    mode: Mode, transition: Option<Transition>, window: Option<real>, available: map<Mode, bool>,
    gateInTransition: bool, control: bool, timeout: real, downstream: Downstream)

  datatype Response = Accepted | NoEffect | InTransition | NotAvailable | InvalidMode

  datatype Event =
    | ChangeAutowareControl(enable: bool, now: real)
    | ChangeOperationMode(requested: Option<Mode>, now: real)
    | ControlResponse(success: bool)
    | ControlReport(autonomous: bool)
    | GateReport(inTransition: bool)
    | EngageReport(engage: bool)
    | GateModeReport(gate: Gate)
    | SelectorReport(selector: Selector)
    | SelectorResponse
    | Timer(now: real, availability: map<Mode, bool>, completed: bool)

  /** What a step leaves and sends. */
  datatype Outcome = Outcome(next: Manager, requests: seq<ControlRequest>, sent: seq<Command>, response: Response)

  const COMPATIBILITY_TIMEOUT := 1.0
  const TIMEOUT_MARGIN := 0.5

  function InitialTimeout(timeout: real, stableDuration: real): (r: real)
    ensures r >= timeout && r >= stableDuration + TIMEOUT_MARGIN
  {
    if timeout < stableDuration + TIMEOUT_MARGIN then stableDuration + TIMEOUT_MARGIN else timeout
  }

  function Initial(timeout: real, stableDuration: real): Manager {
    Manager(Stop, None, None, map[], false, false, InitialTimeout(timeout, stableDuration),
            Downstream(None, None, None, false))
  }

  function Available(m: map<Mode, bool>, mode: Mode): bool {
    mode in m && m[mode]
  }

  // ----- requests -----

  /** A request for a mode, or with None for control in the current mode. */
  function ChangeMode(s: Manager, request: Option<Mode>, now: real): Outcome {
    var target := if request.Some? then request.value else s.mode;
    if request == Some(s.mode) then Outcome(s, [], [], NoEffect)
    else if s.control && request.None? then Outcome(s, [], [], NoEffect)
    else if s.transition.Some? && request != Some(Stop) then Outcome(s, [], [], InTransition)
    else if (s.control || request.None?) && !Available(s.available, target) then Outcome(s, [], [], NotAvailable)
    else
      var transition :=
        if request.None? then Some(Transition(now, None, true, false, false))
        else if s.control then Some(Transition(now, Some(s.mode), false, false, false))
        else s.transition;
      Outcome(s.(transition := transition, window := Some(now), mode := target), [], [], Accepted)
  }

  function SetControl(s: Manager, enable: bool, now: real): Outcome {
    if enable then ChangeMode(s, None, now)
    else Outcome(s.(window := None, transition := None), [RequestManual], [], Accepted)
  }

  // ----- the timer -----

  /** The window closes when it has timed out or the older nodes have followed. */
  function WindowOpen(s: Manager, now: real): bool {
    s.window.Some? && now - s.window.value <= COMPATIBILITY_TIMEOUT
  }

  /** While the window is open the older nodes are told the mode, otherwise their mode is taken. */
  function Synchronised(s: Manager, now: real): Manager {
    if WindowOpen(s, now) then
      s.(downstream := AfterSet(s.downstream, s.mode),
         window := if GetMode(s.downstream) == Some(s.mode) then None else s.window)
    else
      s.(window := None, mode := if GetMode(s.downstream).Some? then GetMode(s.downstream).value else s.mode)
  }

  /** Timeout, engage failure, or an override after the engagement. */
  predicate Cancels(t: Transition, timeout: real, control: bool, now: real) {
    timeout < now - t.time || t.engageFailed || (!control && t.engageCompleted)
  }

  function Cancelled(s: Manager, t: Transition, now: real): Outcome {
    if t.previous.Some? then
      Outcome(s.(window := Some(now), mode := t.previous.value, transition := None), [], [], Accepted)
    else Outcome(s.(window := None, transition := None), [RequestManual], [], Accepted)
  }

  function Processed(s: Manager, t: Transition, now: real, completed: bool): Outcome {
    if Cancels(t, s.timeout, s.control, now) then Cancelled(s, t, now)
    else
      var t' := if s.control then t.(engageCompleted := true) else t;
      var s' := s.(transition := Some(t'));
      if GetMode(s.downstream) != Some(s.mode) then Outcome(s', [], [], Accepted)
      else if s.control then
        Outcome(if completed then s.(transition := None) else s', [], [], Accepted)
      else if t'.engageRequested && s.gateInTransition then
        Outcome(s.(transition := Some(t'.(engageRequested := false))), [RequestAutonomous], [], Accepted)
      else Outcome(s', [], [], Accepted)
  }

  function Tick(s: Manager, now: real, availability: map<Mode, bool>, completed: bool): Outcome {
    var sent := if WindowOpen(s, now) then Commands(s.downstream, s.mode) else [];
    var m := Synchronised(s.(available := availability), now);
    if m.transition.None? then Outcome(m, [], sent, Accepted)
    else Processed(m, m.transition.value, now, completed).(sent := sent)
  }

  function Step(s: Manager, e: Event): Outcome {
    match e
    case ChangeAutowareControl(enable, now) => SetControl(s, enable, now)
    case ChangeOperationMode(requested, now) =>
      if requested.None? then Outcome(s, [], [], InvalidMode) else ChangeMode(s, requested, now)
    case ControlResponse(success) =>
      if !success && s.transition.Some? then
        Outcome(s.(transition := Some(s.transition.value.(engageFailed := true))), [], [], Accepted)
      else Outcome(s, [], [], Accepted)
    case ControlReport(autonomous) => Outcome(s.(control := autonomous), [], [], Accepted)
    case GateReport(inTransition) => Outcome(s.(gateInTransition := inTransition), [], [], Accepted)
    case EngageReport(engage) => Outcome(s.(downstream := s.downstream.(engage := Some(engage))), [], [], Accepted)
    case GateModeReport(gate) => Outcome(s.(downstream := s.downstream.(gate := Some(gate))), [], [], Accepted)
    case SelectorReport(selector) =>
      Outcome(s.(downstream := s.downstream.(selector := Some(selector))), [], [], Accepted)
    case SelectorResponse => Outcome(s.(downstream := s.downstream.(calling := false)), [], [], Accepted)
    case Timer(now, availability, completed) => Tick(s, now, availability, completed)
  }

  // ----- the node -----

  class OperationModeTransitionManager {
    const compatibility: Compatibility
    var currentMode: Mode
    var transition: Option<Transition>
    var compatibilityTransition: Option<real>
    var availableModeChange: map<Mode, bool>
    var gateIsInTransition: bool
    var controlModeIsAutonomous: bool
    var transitionTimeout: real
    var controlRequests: seq<ControlRequest>

    ghost function View(): Manager
      reads this, compatibility
    {
      Manager(currentMode, transition, compatibilityTransition, availableModeChange, gateIsInTransition,
              controlModeIsAutonomous, transitionTimeout, compatibility.View())
    }

    constructor (timeout: real, stableDuration: real)
      ensures View() == Initial(timeout, stableDuration) && fresh(compatibility)
      ensures controlRequests == [] && compatibility.outbox == []
      ensures currentMode == Stop && transition.None? && compatibilityTransition.None?
      ensures !controlModeIsAutonomous && !gateIsInTransition
    {
      currentMode, transition, compatibilityTransition := Stop, None, None;
      availableModeChange, gateIsInTransition, controlModeIsAutonomous := map[], false, false;
      transitionTimeout := timeout;
      if timeout < stableDuration + TIMEOUT_MARGIN { transitionTimeout := stableDuration + TIMEOUT_MARGIN; }
      controlRequests := [];
      compatibility := new Compatibility();
    }

    method OnControlModeReport(autonomous: bool)
      modifies `controlModeIsAutonomous
      ensures controlModeIsAutonomous == autonomous
      ensures View() == Step(old(View()), ControlReport(autonomous)).next
    {
      controlModeIsAutonomous := autonomous;
    }

    method OnGateOperationMode(inTransition: bool)
      modifies `gateIsInTransition
      ensures gateIsInTransition == inTransition
      ensures View() == Step(old(View()), GateReport(inTransition)).next
    {
      gateIsInTransition := inTransition;
    }

    method OnChangeAutowareControl(enable: bool, now: real) returns (response: Response)
      modifies this
      ensures var o := Step(old(View()), ChangeAutowareControl(enable, now));
              View() == o.next && response == o.response &&
              controlRequests == old(controlRequests) + o.requests && unchanged(compatibility)
    {
      if enable {
        response := ChangeOperationModeTo(None, now);
      } else {
        compatibilityTransition := None;
        transition := None;
        ChangeControlMode(RequestManual);
        response := Accepted;
      }
    }

    method OnChangeOperationMode(requested: Option<Mode>, now: real) returns (response: Response)
      modifies this
      ensures var o := Step(old(View()), ChangeOperationMode(requested, now));
              View() == o.next && response == o.response &&
              controlRequests == old(controlRequests) + o.requests && unchanged(compatibility)
    {
      if requested.None? { return InvalidMode; }
      response := ChangeOperationModeTo(requested, now);
    }

    method ChangeControlMode(mode: ControlRequest)
      modifies `controlRequests
      ensures controlRequests == old(controlRequests) + [mode]
    {
      controlRequests := controlRequests + [mode];
    }

    method OnControlModeResponse(success: bool)
      modifies `transition
      ensures transition == if !success && old(transition).Some?
                            then Some(old(transition).value.(engageFailed := true)) else old(transition)
      ensures View() == Step(old(View()), ControlResponse(success)).next
    {
      if !success {
        if transition.Some? { transition := Some(transition.value.(engageFailed := true)); }
      }
    }

    method ChangeOperationModeTo(requestMode: Option<Mode>, now: real) returns (response: Response)
      modifies this
      ensures var o := ChangeMode(old(View()), requestMode, now);
              View() == o.next && response == o.response && o.requests == []
      ensures controlRequests == old(controlRequests) && unchanged(compatibility)
    {
      var currentControl := controlModeIsAutonomous;
      var requestControl := requestMode.None?;
      if Some(currentMode) == requestMode { return NoEffect; }
      if currentControl && requestControl { return NoEffect; }
      if transition.Some? && requestMode != Some(Stop) { return InTransition; }
      var target := if requestMode.Some? then requestMode.value else currentMode;
      if currentControl || requestControl {
        if !Available(availableModeChange, target) { return NotAvailable; }
        if requestControl {
          transition := Some(Transition(now, None, requestControl, false, false));
        } else {
          transition := Some(Transition(now, Some(currentMode), requestControl, false, false));
        }
      }
      compatibilityTransition := Some(now);
      currentMode := target;
      response := Accepted;
    }

    method CancelTransition(now: real)
      requires transition.Some?
      modifies this
      ensures var o := Cancelled(old(View()), old(transition).value, now);
              View() == o.next && controlRequests == old(controlRequests) + o.requests
      ensures unchanged(compatibility)
    {
      var previous := transition.value.previous;
      if previous.Some? {
        compatibilityTransition := Some(now);
        currentMode := previous.value;
      } else {
        compatibilityTransition := None;
        ChangeControlMode(RequestManual);
      }
      transition := None;
    }

    method ProcessTransition(now: real, completed: bool)
      requires transition.Some?
      modifies this
      ensures var o := Processed(old(View()), old(transition).value, now, completed);
              View() == o.next && controlRequests == old(controlRequests) + o.requests
      ensures unchanged(compatibility)
    {
      hide GetMode;
      var currentControl := controlModeIsAutonomous;
      if transitionTimeout < now - transition.value.time { CancelTransition(now); return; }
      if transition.value.engageFailed { CancelTransition(now); return; }
      if currentControl {
        transition := Some(transition.value.(engageCompleted := true));
      } else {
        if transition.value.engageCompleted { CancelTransition(now); return; }
      }
      var mode := compatibility.ReadMode();
      if Some(currentMode) != mode { return; }
      if currentControl {
        if completed { transition := None; return; }
      } else {
        if transition.value.engageRequested && gateIsInTransition {
          transition := Some(transition.value.(engageRequested := false));
          ChangeControlMode(RequestAutonomous);
          return;
        }
      }
    }

    method OnTimer(now: real, availability: map<Mode, bool>, completed: bool)
      modifies this, compatibility
      ensures var o := Step(old(View()), Timer(now, availability, completed));
              View() == o.next && controlRequests == old(controlRequests) + o.requests &&
              compatibility.outbox == old(compatibility.outbox) + o.sent
    {
      hide GetMode, Commands, Synchronised, Processed;
      availableModeChange := availability;
      SynchroniseModes(now);
      if transition.Some? { ProcessTransition(now, completed); }
    }

    /** The window and the older nodes. */
    method SynchroniseModes(now: real)
      modifies `compatibilityTransition, `currentMode, compatibility
      ensures View() == Synchronised(old(View()), now)
      ensures compatibility.outbox ==
        old(compatibility.outbox) +
        if WindowOpen(old(View()), now) then Commands(old(View()).downstream, old(currentMode)) else []
    {
      hide GetMode, Commands, AfterSet;
      SetKeepsMode(View().downstream, currentMode);
      if compatibilityTransition.Some? {
        if COMPATIBILITY_TIMEOUT < now - compatibilityTransition.value {
          compatibilityTransition := None;
        }
      }
      if compatibilityTransition.Some? {
        compatibility.SetMode(currentMode);
      } else {
        var mode := compatibility.ReadMode();
        if mode.Some? { currentMode := mode.value; }
      }
      if compatibilityTransition.Some? {
        var mode := compatibility.ReadMode();
        if Some(currentMode) == mode { compatibilityTransition := None; }
      }
    }
  }

  // ----- after a tick -----

  /** Told, unknown, or equal. */
  predicate Synced(s: Manager) {
    s.window.Some? || GetMode(s.downstream).None? || GetMode(s.downstream) == Some(s.mode)
  }

  /** An engage transition without a previous mode is cancelled while the window is open and the
      older nodes still report another mode. */
  predicate DropsSync(s: Manager, now: real) {
    && WindowOpen(s, now) && GetMode(s.downstream).Some? && GetMode(s.downstream) != Some(s.mode)
    && s.transition.Some? && s.transition.value.previous.None?
    && Cancels(s.transition.value, s.timeout, s.control, now)
  }

  /** A tick leaves the modes in agreement, unknown or being told, if and only if it does not drop
      an open window together with an engage transition. */
  lemma TickSyncsIff(s: Manager, now: real, availability: map<Mode, bool>, completed: bool)
    ensures Synced(Tick(s, now, availability, completed).next) <==> !DropsSync(s, now)
  {
    hide GetMode, AfterSet, Commands;
    SetKeepsMode(s.downstream, s.mode);
  }

  /** The disagreement lasts one tick: the next one takes over the mode of the older nodes. */
  lemma NextTickHeals(s: Manager, now: real, availability: map<Mode, bool>, completed: bool)
    requires s.window.None?
    ensures Synced(Tick(s, now, availability, completed).next)
  {
    TickSyncsIff(s, now, availability, completed);
  }

  lemma DropClosesWindow(s: Manager, now: real, availability: map<Mode, bool>, completed: bool)
    requires DropsSync(s, now)
    ensures Tick(s, now, availability, completed).next.window.None?
    ensures Tick(s, now, availability, completed).requests == [RequestManual]
  {
    hide GetMode, AfterSet, Commands;
  }

  /** A transition that survives a tick is no older than the timeout, has not failed, and is marked
      engaged exactly when the vehicle reports autonomous control. */
  lemma SurvivingTransition(s: Manager, now: real, availability: map<Mode, bool>, completed: bool)
    ensures var n := Tick(s, now, availability, completed).next;
            n.transition.Some? ==>
              var t := n.transition.value;
              now - t.time <= n.timeout && !t.engageFailed && (t.engageCompleted <==> n.control)
  {
    hide GetMode, AfterSet, Commands;
  }

  /** Autonomous control is requested only for a pending engagement, once the older nodes have
      followed and the gate is in transition; the engagement is then no longer pending. */
  lemma EngagesOnlyWhenReady(s: Manager, now: real, availability: map<Mode, bool>, completed: bool)
    ensures var o := Tick(s, now, availability, completed);
            RequestAutonomous in o.requests ==>
              o.requests == [RequestAutonomous] && !s.control && s.gateInTransition &&
              GetMode(s.downstream) == Some(o.next.mode) &&
              s.transition.Some? && s.transition.value.engageRequested &&
              o.next.transition == Some(s.transition.value.(engageRequested := false))
  {
    hide GetMode, Commands;
    SetKeepsMode(s.downstream, s.mode);
  }

  // ----- requests -----

  /** A rejected request changes nothing; the reasons are tried in this order. */
  lemma RequestOutcome(s: Manager, request: Option<Mode>, now: real)
    ensures var o := ChangeMode(s, request, now);
            (o.response != Accepted ==> o.next == s) &&
            (o.response == Accepted <==>
              request != Some(s.mode) && !(s.control && request.None?) &&
              (s.transition.Some? ==> request == Some(Stop)) &&
              (s.control || request.None? ==>
                Available(s.available, if request.Some? then request.value else s.mode)))
  {
  }

  // ----- runs -----

  datatype Trace = Trace(last: Manager, requests: seq<ControlRequest>, sent: seq<Command>)

  /** A run from the initial state. */
  function Run(start: Manager, events: seq<Event>): Trace {
    if events == [] then Trace(start, [], [])
    else
      var before := Run(start, events[..|events| - 1]);
      var o := Step(before.last, events[|events| - 1]);
      Trace(o.next, before.requests + o.requests, before.sent + o.sent)
  }

  /** The selector answers only calls, and the vehicle only control requests. */
  predicate Plausible(start: Manager, events: seq<Event>) {
    && (forall i :: 0 <= i < |events| && events[i] == SelectorResponse ==>
          Run(start, events[..i]).last.downstream.calling)
    && (forall i :: 0 <= i < |events| && events[i].ControlResponse? ==>
          AnswersOf(events[..i]) < |Run(start, events[..i]).requests|)
  }

  function AnswersOf(events: seq<Event>): nat {
    if events == [] then 0
    else AnswersOf(events[..|events| - 1]) + if events[|events| - 1].ControlResponse? then 1 else 0
  }

  /** A pending engagement has no mode to go back to. */
  predicate PendingHasNoPrevious(s: Manager) {
    s.transition.Some? && s.transition.value.engageRequested ==> s.transition.value.previous.None?
  }

  lemma StepKeepsPending(s: Manager, e: Event)
    requires PendingHasNoPrevious(s)
    ensures PendingHasNoPrevious(Step(s, e).next)
  {
    hide GetMode, AfterSet, Commands;
  }

  lemma {:induction false} PendingInEveryRun(timeout: real, stable: real, events: seq<Event>)
    ensures PendingHasNoPrevious(Run(Initial(timeout, stable), events).last)
  {
    hide Step, PendingHasNoPrevious;
    if events == [] {
      NothingPending(timeout, stable);
    } else {
      PendingInEveryRun(timeout, stable, events[..|events| - 1]);
      StepKeepsPending(Run(Initial(timeout, stable), events[..|events| - 1]).last, events[|events| - 1]);
    }
  }

  lemma NothingPending(timeout: real, stable: real)
    ensures PendingHasNoPrevious(Initial(timeout, stable))
  {
  }

  function Count<T(==)>(s: seq<T>, x: T): nat {
    multiset(s)[x]
  }

  function Pending(s: Manager): nat {
    if s.transition.Some? && s.transition.value.engageRequested then 1 else 0
  }

  /** Accepted requests for control, each of which starts one engage transition. */
  function Engagements(start: Manager, events: seq<Event>): nat {
    if events == [] then 0
    else
      var e := events[|events| - 1];
      Engagements(start, events[..|events| - 1]) +
      (if e.ChangeAutowareControl? && e.enable &&
          Step(Run(start, events[..|events| - 1]).last, e).response == Accepted then 1 else 0)
  }

  lemma TickSpendsPending(s: Manager, now: real, availability: map<Mode, bool>, completed: bool)
    ensures var o := Tick(s, now, availability, completed);
            Count(o.requests, RequestAutonomous) + Pending(o.next) <= Pending(s)
  {
    hide GetMode, Commands, Cancels, Processed, Synchronised;
    SyncKeepsTransition(s.(available := availability), now);
    var m := Synchronised(s.(available := availability), now);
    if m.transition.Some? { ProcessedSpendsPending(m, m.transition.value, now, completed); }
  }

  lemma SyncKeepsTransition(s: Manager, now: real)
    ensures Synchronised(s, now).transition == s.transition
  {
    hide GetMode, AfterSet;
  }

  lemma ProcessedSpendsPending(s: Manager, t: Transition, now: real, completed: bool)
    ensures var o := Processed(s, t, now, completed);
            Count(o.requests, RequestAutonomous) + Pending(o.next) <= if t.engageRequested then 1 else 0
  {
    hide GetMode, Cancels;
  }

  lemma StepSpendsEngagement(s: Manager, e: Event)
    ensures var o := Step(s, e);
            Count(o.requests, RequestAutonomous) + Pending(o.next) <=
            Pending(s) + if e.ChangeAutowareControl? && e.enable && o.response == Accepted then 1 else 0
  {
    hide Tick;
    if e.Timer? { TickSpendsPending(s, e.now, e.availability, e.completed); }
  }

  /** Autonomous control is requested at most once per engage transition, in every run. */
  lemma {:induction false} OneRequestPerEngagement(start: Manager, events: seq<Event>)
    requires start.transition.None?
    ensures var r := Run(start, events);
            Count(r.requests, RequestAutonomous) + Pending(r.last) <= Engagements(start, events)
  {
    hide Step;
    if events != [] {
      var init := events[..|events| - 1];
      OneRequestPerEngagement(start, init);
      StepSpendsEngagement(Run(start, init).last, events[|events| - 1]);
    }
  }

  function CallsOf(sent: seq<Command>): nat {
    if sent == [] then 0 else CallsOf(sent[..|sent| - 1]) + if sent[|sent| - 1].CallSelector? then 1 else 0
  }

  function ResponsesOf(events: seq<Event>): nat {
    if events == [] then 0
    else ResponsesOf(events[..|events| - 1]) + if events[|events| - 1] == SelectorResponse then 1 else 0
  }

  lemma {:induction false} CallsConcat(a: seq<Command>, b: seq<Command>)
    ensures CallsOf(a + b) == CallsOf(a) + CallsOf(b)
  {
    if b == [] {
      assert a + b == a;
    } else {
      assert (a + b)[..|a + b| - 1] == a + b[..|b| - 1];
      CallsConcat(a, b[..|b| - 1]);
    }
  }

  lemma CallsInCommands(d: Downstream, m: Mode)
    ensures CallsOf(Commands(d, m)) == if CallsSelector(d, m) then 1 else 0
  {
    if d.Known() {
      var a := if CallsSelector(d, m) then [CallSelector(SelectorFor(m))] else [];
      var b := if d.gate.value != GateFor(m) then [SetGate(GateFor(m))]
               else if d.engage.value != EngageFor(m) then [SetEngage(EngageFor(m))]
               else [];
      CallsConcat(a, b);
    }
  }

  /** Every call but at most one has been answered. */
  lemma {:induction false} OneOutstandingCall(timeout: real, stable: real, events: seq<Event>)
    requires Plausible(Initial(timeout, stable), events)
    ensures var r := Run(Initial(timeout, stable), events);
            CallsOf(r.sent) == ResponsesOf(events) + if r.last.downstream.calling then 1 else 0
  {
    hide Step, Commands;
    var start := Initial(timeout, stable);
    if events != [] {
      var init, e := events[..|events| - 1], events[|events| - 1];
      var before := Run(start, init);
      assert forall i :: 0 <= i < |init| ==> init[..i] == events[..i];
      OneOutstandingCall(timeout, stable, init);
      CallsConcat(before.sent, Step(before.last, e).sent);
      StepCalls(before.last, e);
    }
  }

  lemma StepCalls(s: Manager, e: Event)
    requires e == SelectorResponse ==> s.downstream.calling
    ensures var o := Step(s, e);
            CallsOf(o.sent) + (if s.downstream.calling then 1 else 0) ==
            (if e == SelectorResponse then 1 else 0) + if o.next.downstream.calling then 1 else 0
  {
    hide Tick, CallsOf, ChangeMode;
    NoCalls();
    if e.Timer? { TickCalls(s, e.now, e.availability, e.completed); }
    if e.ChangeAutowareControl? { ModeCalls(s, None, e.now); }
    if e.ChangeOperationMode? { ModeCalls(s, e.requested, e.now); }
  }

  lemma NoCalls()
    ensures CallsOf([]) == 0
  {
  }

  lemma ModeCalls(s: Manager, request: Option<Mode>, now: real)
    ensures ChangeMode(s, request, now).sent == []
    ensures ChangeMode(s, request, now).next.downstream == s.downstream
  {
  }

  lemma TickCalls(s: Manager, now: real, availability: map<Mode, bool>, completed: bool)
    ensures var o := Tick(s, now, availability, completed);
            CallsOf(o.sent) + (if s.downstream.calling then 1 else 0) == if o.next.downstream.calling then 1 else 0
  {
    hide GetMode, Commands, CallsOf;
    NoCalls();
    CallsInCommands(s.downstream, s.mode);
  }

  // ----- a run that ends out of sync -----

  const BOTH := map[Autonomous := true, Stop := true]

  /** The vehicle rejects an engagement during a switch to STOP: the tick ends with no window
      although the older nodes still report AUTONOMOUS. */
  function DroppingRun(): (events: seq<Event>)
    ensures |events| == 10 && events[9] == Timer(0.7, BOTH, false)
    ensures forall k :: 0 <= k < 10 ==> (events[k].ControlResponse? <==> k == 8) && events[k] != SelectorResponse
  {
    [GateReport(true), EngageReport(true), GateModeReport(Auto), SelectorReport(NoSelector),
     Timer(0.0, BOTH, false),
     ChangeAutowareControl(true, 0.5),
     Timer(0.55, BOTH, false),
     ChangeOperationMode(Some(Stop), 0.6),
     ControlResponse(false),
     Timer(0.7, BOTH, false)]
  }

  /** The state after k events. */
  function DroppingState(k: nat): Manager {
    var start := Initial(10.0, 3.0);
    var known := Downstream(Some(true), Some(Auto), Some(NoSelector), false);
    var ready := Manager(Autonomous, None, None, BOTH, true, false, 10.0, known);
    var engaging := Transition(0.5, None, true, false, false);
    var requested := engaging.(engageRequested := false);
    if k == 0 then start
    else if k == 1 then start.(gateInTransition := true)
    else if k == 2 then start.(gateInTransition := true, downstream := Downstream(Some(true), None, None, false))
    else if k == 3 then start.(gateInTransition := true, downstream := Downstream(Some(true), Some(Auto), None, false))
    else if k == 4 then start.(gateInTransition := true, downstream := known)
    else if k == 5 then ready
    else if k == 6 then ready.(transition := Some(engaging), window := Some(0.5))
    else if k == 7 then ready.(transition := Some(requested))
    else if k == 8 then ready.(mode := Stop, transition := Some(requested), window := Some(0.6))
    else ready.(mode := Stop, transition := Some(requested.(engageFailed := true)), window := Some(0.6))
  }

  /** Step k of the run, from one state to the next. */
  predicate DroppingStepIs(k: nat)
    requires k < 9
  {
    var o := Step(DroppingState(k), DroppingRun()[k]);
    o.next == DroppingState(k + 1) && o.requests == if k == 6 then [RequestAutonomous] else []
  }

  lemma FirstSteps(k: nat)
    requires k < 5
    ensures DroppingStepIs(k)
  {
    hide ChangeMode;
  }

  lemma LaterSteps(k: nat)
    requires 5 <= k < 9
    ensures DroppingStepIs(k)
  {
    hide AfterSet, Commands;
    SetKeepsMode(DroppingState(k).downstream, Autonomous);
    assert k == 6 ==> AfterSet(DroppingState(k).downstream, Autonomous) == DroppingState(k).downstream by {
      SettledDownstream();
    }
  }

  lemma SettledDownstream()
    ensures var d := Downstream(Some(true), Some(Auto), Some(NoSelector), false);
            AfterSet(d, Autonomous) == d
  {
  }

  lemma RunStep(start: Manager, events: seq<Event>, k: nat)
    requires k < |events|
    ensures var before := Run(start, events[..k]);
            var o := Step(before.last, events[k]);
            Run(start, events[..k + 1]) == Trace(o.next, before.requests + o.requests, before.sent + o.sent)
    ensures AnswersOf(events[..k + 1]) == AnswersOf(events[..k]) + if events[k].ControlResponse? then 1 else 0
  {
    hide Step;
    assert events[..k + 1][..k] == events[..k];
  }

  /** The state, the number of control requests and of answers after k events. */
  predicate DroppingAt(k: nat)
    requires k <= 9
  {
    var r := Run(Initial(10.0, 3.0), DroppingRun()[..k]);
    && r.last == DroppingState(k) && |r.requests| == (if k > 6 then 1 else 0)
    && AnswersOf(DroppingRun()[..k]) == if k > 8 then 1 else 0
  }

  lemma DroppingStart()
    ensures DroppingAt(0)
  {
    hide Step;
    assert DroppingRun()[..0] == [];
  }

  lemma DroppingNext(k: nat)
    requires k < 9 && DroppingAt(k)
    ensures DroppingAt(k + 1)
  {
    hide Step, Run, DroppingState, DroppingRun, Initial, AnswersOf;
    RunStep(Initial(10.0, 3.0), DroppingRun(), k);
    if k < 5 { FirstSteps(k); } else { LaterSteps(k); }
  }

  lemma {:induction false} DroppingPrefix(k: nat)
    requires k <= 9
    ensures DroppingAt(k)
  {
    hide DroppingAt;
    if k == 0 {
      DroppingStart();
    } else {
      DroppingPrefix(k - 1);
      DroppingNext(k - 1);
    }
  }

  lemma LastDrops()
    ensures !Synced(Step(DroppingState(9), Timer(0.7, BOTH, false)).next)
  {
    assert DropsSync(DroppingState(9), 0.7);
    TickSyncsIff(DroppingState(9), 0.7, BOTH, false);
  }

  /** The node can receive this run, which answers one control request, and it ends out of sync. */
  lemma SyncCanDrop()
    ensures Plausible(Initial(10.0, 3.0), DroppingRun())
    ensures !Synced(Run(Initial(10.0, 3.0), DroppingRun()).last)
  {
    hide Step, Run, Synced, Initial, DroppingRun, DroppingState, AnswersOf;
    DroppingPrefix(8);
    DroppingPrefix(9);
    RunStep(Initial(10.0, 3.0), DroppingRun(), 9);
    LastDrops();
    assert DroppingRun()[..10] == DroppingRun();
  }
}
