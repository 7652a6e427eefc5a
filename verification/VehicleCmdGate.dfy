/** The gate in front of the vehicle interface: it selects a command source, filters its commands,
    and replaces them by an emergency stop when a heartbeat is lost or a stop is requested.

    Messages, service calls and timer ticks are atomic events; time is an input of the events. */
module VehicleCmdGate {
  import opened Wrappers
  import opened Scalars
  import opened VehicleCmdFilter

  datatype GateMode = AutoGate | ExternalGate | UnsupportedGate

  /** What the emergency handler reports. */
  datatype MrmPhase = MrmNormal | MrmOperating | MrmSucceeded | MrmFailed | MrmOtherPhase

  datatype MrmBehavior = MrmNone | MrmComfortableStop | MrmEmergencyStop | MrmOtherBehavior

  datatype Signal = NoCommand | Enable | Park | Code(n: int)

  datatype Auxiliary = Auxiliary(turn: Signal, hazard: Signal, gear: Signal)

  datatype Commands = Commands(control: Command, aux: Auxiliary)

  const DEFAULT_COMMANDS := Commands(STOPPED, Auxiliary(NoCommand, NoCommand, Park))

  datatype Config = Config(
    useEmergencyHandling: bool, checkExternalHeartbeat: bool, systemTimeout: real, externalTimeout: real,
    stopHoldAcceleration: real, emergencyAcceleration: real, nominal: Param, onTransition: Param)
  {
    predicate Valid() { nominal.wheelBase > 0.0 && onTransition.wheelBase > 0.0 }

    predicate Sane() { nominal.Sane() && onTransition.Sane() }
  }

  /** latched: the external stop. previous: what both filters compare with. lastControl: the last
      filtered command. */
  datatype Gate = Gate(
    engaged: bool, systemEmergency: bool, latched: bool, gateModeChanged: bool,
    systemTimedOut: bool, externalTimedOut: bool,
    systemHeartbeat: Option<real>, externalHeartbeat: Option<real>,
    gateMode: GateMode, autonomous: bool, inTransition: bool, paused: bool,
    steer: real, gear: Option<Signal>, auto: Commands, remote: Commands, emergency: Commands,
    previous: Command, lastControl: Command, lastTime: Option<real>)

  const INITIAL := Gate(
    false, false, false, false, false, false, None, None, AutoGate, false, false, false,
    0.0, None, DEFAULT_COMMANDS, DEFAULT_COMMANDS, DEFAULT_COMMANDS, STOPPED, STOPPED, None)

  datatype Event =
    | AutoControl(command: Command, now: real)
    | RemoteControl(command: Command, now: real)
    | EmergencyControl(command: Command, now: real)
    | AutoAuxiliary(aux: Auxiliary)
    | RemoteAuxiliary(aux: Auxiliary)
    | EmergencyAuxiliary(hazard: Signal, gear: Signal)
    | Timer(now: real)
    | ExternalHeartbeat(now: real)
    | MrmState(emergency: bool, now: real)
    | GateModeMessage(mode: GateMode)
    | Engage(engage: bool)
    | Pause(pause: bool)
    | OperationMode(isAutonomous: bool, transition: bool)
    | Steering(angle: real)
    | GearStatus(report: Signal)
    | SetStop
    | ClearStop

  datatype Published =
    | Control(command: Command, isEmergency: bool)
    | Aux(aux: Auxiliary)

  datatype Response = Success | Failure | Thrown

  datatype Outcome = Outcome(next: Gate, published: seq<Published>, response: Response)

  // ----- specification of the steps -----

  function HeartbeatTimeout(received: Option<real>, timeout: real, now: real): bool {
    if timeout == 0.0 then false else received.None? || now - received.value > timeout
  }

  predicate DataReady(c: Config, s: Gate) {
    (c.useEmergencyHandling ==> s.systemHeartbeat.Some?) &&
    (c.checkExternalHeartbeat ==> s.externalHeartbeat.Some?)
  }

  predicate InEmergency(c: Config, s: Gate) {
    c.useEmergencyHandling && s.systemEmergency
  }

  /** What is filtered: the emergency command, a stop when not engaged, no speed when paused. */
  function Selected(c: Config, s: Gate, commands: Commands): Command {
    var source := if InEmergency(c, s) then s.emergency.control else commands.control;
    var engaged := if s.engaged then source else Command(s.steer, 0.0, 0.0, c.stopHoldAcceleration);
    if s.paused then engaged.(speed := 0.0, acceleration := c.stopHoldAcceleration) else engaged
  }

  function ParamOf(c: Config, s: Gate): Param {
    if s.inTransition then c.onTransition else c.nominal
  }

  function TimeSince(last: Option<real>, now: real): real {
    if last.None? then 0.0 else now - last.value
  }

  function Dt(s: Gate, now: real): real {
    TimeSince(s.lastTime, now)
  }

  function Filtered(t: Trig, c: Config, s: Gate, command: Command, now: real): Command
    requires c.Valid()
  {
    FilterAll(t, ParamOf(c, s), s.previous, Dt(s, now), s.steer, command)
  }

  /** In manual mode the next command is compared with the actual steering. */
  function NextPrevious(s: Gate, out: Command): Command {
    if s.autonomous then out else Command(s.steer, 0.0, out.speed, out.acceleration)
  }

  function Publish(t: Trig, c: Config, s: Gate, commands: Commands, now: real): Outcome
    requires c.Valid()
  {
    if (c.useEmergencyHandling && s.systemTimedOut) || s.latched || !DataReady(c, s) then Outcome(s, [], Success)
    else
      var out := Filtered(t, c, s, Selected(c, s, commands), now);
      Outcome(AfterPublish(s, out, now), [Control(out, InEmergency(c, s))], Success)
  }

  function AfterPublish(s: Gate, out: Command, now: real): Gate {
    s.(previous := NextPrevious(s, out), lastControl := out, lastTime := Some(now))
  }

  function EmergencyStop(c: Config, s: Gate): seq<Published> {
    [Control(Command(s.lastControl.steer, s.lastControl.steerRate, 0.0, c.emergencyAcceleration), true),
     Aux(Auxiliary(NoCommand, Enable, NoCommand))]
  }

  /** The auxiliary commands of a tick without a stop. */
  function AuxiliaryOf(c: Config, s: Gate): Option<Auxiliary> {
    if InEmergency(c, s) then Some(s.emergency.aux)
    else match s.gateMode
      case AutoGate =>
        if s.engaged then Some(s.auto.aux)
        else Some(Auxiliary(NoCommand, NoCommand, if s.gear.None? then NoCommand else s.gear.value))
      case ExternalGate => Some(s.remote.aux)
      case UnsupportedGate => None
  }

  function AfterSystemCheck(c: Config, s: Gate, now: real): Gate {
    if c.useEmergencyHandling then s.(systemTimedOut := HeartbeatTimeout(s.systemHeartbeat, c.systemTimeout, now))
    else s
  }

  function AfterExternalCheck(c: Config, s: Gate, now: real): Gate {
    if c.checkExternalHeartbeat then
      var lost := HeartbeatTimeout(s.externalHeartbeat, c.externalTimeout, now);
      s.(externalTimedOut := lost, latched := lost || s.latched)
    else s
  }

  function Tick(c: Config, s: Gate, now: real): Outcome {
    if !DataReady(c, s) then Outcome(s, [], Success)
    else
      var s1 := AfterSystemCheck(c, s, now);
      if c.useEmergencyHandling && s1.systemTimedOut then Outcome(s1, EmergencyStop(c, s1), Success)
      else
        var s2 := AfterExternalCheck(c, s1, now);
        if s2.latched then Outcome(s2, EmergencyStop(c, s2), Success)
        else if s2.gateModeChanged then Outcome(s2.(gateModeChanged := false), [], Success)
        else match AuxiliaryOf(c, s2)
          case Some(aux) => Outcome(s2, [Aux(aux)], Success)
          case None => Outcome(s2, [], Thrown)
  }

  function Clear(s: Gate): Outcome {
    if s.latched && !s.externalTimedOut then Outcome(s.(latched := false), [], Success)
    else Outcome(s, [], Failure)
  }

  function Step(t: Trig, c: Config, s: Gate, e: Event): Outcome
    requires c.Valid()
  {
    match e
    case AutoControl(command, now) =>
      var s' := s.(auto := s.auto.(control := command));
      if s'.gateMode == AutoGate then Publish(t, c, s', s'.auto, now) else Outcome(s', [], Success)
    case RemoteControl(command, now) =>
      var s' := s.(remote := s.remote.(control := command));
      if s'.gateMode == ExternalGate then Publish(t, c, s', s'.remote, now) else Outcome(s', [], Success)
    case EmergencyControl(command, now) =>
      var s' := s.(emergency := s.emergency.(control := command));
      if InEmergency(c, s') then Publish(t, c, s', s'.emergency, now) else Outcome(s', [], Success)
    case AutoAuxiliary(aux) => Outcome(s.(auto := s.auto.(aux := aux)), [], Success)
    case RemoteAuxiliary(aux) => Outcome(s.(remote := s.remote.(aux := aux)), [], Success)
    case EmergencyAuxiliary(hazard, gear) =>
      Outcome(s.(emergency := s.emergency.(aux := s.emergency.aux.(hazard := hazard, gear := gear))), [], Success)
    case Timer(now) => Tick(c, s, now)
    case ExternalHeartbeat(now) => Outcome(s.(externalHeartbeat := Some(now)), [], Success)
    case MrmState(emergency, now) =>
      Outcome(s.(systemEmergency := emergency, systemHeartbeat := Some(now)), [], Success)
    case GateModeMessage(mode) => Outcome(s.(gateMode := mode, gateModeChanged := true), [], Success)
    case Engage(engage) => Outcome(s.(engaged := engage), [], Success)
    case Pause(pause) => Outcome(s.(paused := pause), [], Success)
    case OperationMode(isAutonomous, transition) =>
      Outcome(s.(autonomous := isAutonomous, inTransition := transition), [], Success)
    case Steering(angle) => Outcome(s.(steer := angle), [], Success)
    case GearStatus(report) => Outcome(s.(gear := Some(report)), [], Success)
    case SetStop => Outcome(s.(latched := true), [], Success)
    case ClearStop => Clear(s)
  }

  // ----- the external stop -----

  predicate StopCommand(c: Config, p: Published) {
    p.Control? ==> p.command.speed == 0.0 && p.command.acceleration == c.emergencyAcceleration && p.isEmergency
  }

  predicate OnlyStops(c: Config, ps: seq<Published>) {
    forall i :: 0 <= i < |ps| ==> StopCommand(c, ps[i])
  }

  /** Nothing that the filter uses differs. */
  predicate SameForFilter(a: Gate, b: Gate) {
    a.previous == b.previous && a.lastTime == b.lastTime && a.inTransition == b.inTransition &&
    a.engaged == b.engaged && a.paused == b.paused && a.steer == b.steer
  }

  /** The only control command of a tick is the emergency stop, and a tick changes nothing that the
      filter uses. */
  lemma TickStops(c: Config, s: Gate, now: real)
    ensures var o := Tick(c, s, now);
            OnlyStops(c, o.published) && SameForFilter(o.next, s) && (s.latched ==> o.next.latched)
  {
    hide HeartbeatTimeout, AuxiliaryOf, DataReady, AfterSystemCheck, AfterExternalCheck, EmergencyStop, StopCommand;
    var s1 := AfterSystemCheck(c, s, now);
    SystemCheckKeeps(c, s, now);
    ExternalCheckKeeps(c, s1, now);
    EmergencyStopIsStop(c, s1);
    EmergencyStopIsStop(c, AfterExternalCheck(c, s1, now));
    match AuxiliaryOf(c, AfterExternalCheck(c, s1, now))
    case Some(aux) => AuxIsNoControl(c, aux);
    case None =>
  }

  lemma AuxIsNoControl(c: Config, aux: Auxiliary)
    ensures StopCommand(c, Aux(aux))
  {
  }

  lemma SystemCheckKeeps(c: Config, s: Gate, now: real)
    ensures var n := AfterSystemCheck(c, s, now); SameForFilter(n, s) && n.latched == s.latched
  {
    hide HeartbeatTimeout;
  }

  lemma ExternalCheckKeeps(c: Config, s: Gate, now: real)
    ensures var n := AfterExternalCheck(c, s, now); SameForFilter(n, s) && (s.latched ==> n.latched)
  {
    hide HeartbeatTimeout;
  }

  lemma EmergencyStopIsStop(c: Config, s: Gate)
    ensures OnlyStops(c, EmergencyStop(c, s))
  {
  }

  // ----- three kinds of events -----

  function EventTime(e: Event): Option<real> {
    match e
    case AutoControl(_, now) => Some(now)
    case RemoteControl(_, now) => Some(now)
    case EmergencyControl(_, now) => Some(now)
    case _ => None
  }

  predicate IsCommand(e: Event) { EventTime(e).Some? }

  /** A command is stored first. */
  function Received(s: Gate, e: Event): Gate {
    match e
    case AutoControl(command, now) => s.(auto := s.auto.(control := command))
    case RemoteControl(command, now) => s.(remote := s.remote.(control := command))
    case EmergencyControl(command, now) => s.(emergency := s.emergency.(control := command))
    case _ => s
  }

  /** Then it is published if its source is the one in use. */
  predicate Used(c: Config, s: Gate, e: Event) {
    match e
    case AutoControl(_, _) => s.gateMode == AutoGate
    case RemoteControl(_, _) => s.gateMode == ExternalGate
    case EmergencyControl(_, _) => InEmergency(c, s)
    case _ => false
  }

  function SourceOf(s: Gate, e: Event): Commands {
    match e
    case AutoControl(_, _) => s.auto
    case RemoteControl(_, _) => s.remote
    case _ => s.emergency
  }

  lemma CommandStep(t: Trig, c: Config, s: Gate, e: Event)
    requires c.Valid() && IsCommand(e)
    ensures var s' := Received(s, e);
            Step(t, c, s, e) == if Used(c, s', e) then Publish(t, c, s', SourceOf(s', e), EventTime(e).value)
                                else Outcome(s', [], Success)
  {
    hide Publish, Config.Valid, InEmergency;
  }

  lemma ReceivedKeeps(s: Gate, e: Event)
    ensures SameForFilter(Received(s, e), s) && Received(s, e).latched == s.latched
  {
  }

  /** Events other than commands and ticks publish nothing and leave the filter as it is. */
  lemma QuietStep(t: Trig, c: Config, s: Gate, e: Event)
    requires c.Valid() && !IsCommand(e) && !e.Timer?
    ensures var o := Step(t, c, s, e);
            o.published == [] && o.next.previous == s.previous && o.next.lastTime == s.lastTime &&
            o.next.inTransition == (if e.OperationMode? then e.transition else s.inTransition) &&
            o.next.engaged == (if e.Engage? then e.engage else s.engaged) &&
            o.next.paused == (if e.Pause? then e.pause else s.paused)
  {
    hide Publish, Tick, Config.Valid;
  }

  lemma LatchAfterQuiet(t: Trig, c: Config, s: Gate, e: Event)
    requires c.Valid() && !IsCommand(e) && !e.Timer?
    ensures Step(t, c, s, e).next.latched <==>
            if e.ClearStop? then s.latched && s.externalTimedOut else e.SetStop? || s.latched
  {
    hide Publish, Tick, Config.Valid;
  }

  /** A clear succeeds only when latched, and exactly then unlatches. */
  lemma ClearOutcome(t: Trig, c: Config, s: Gate)
    requires c.Valid()
    ensures Step(t, c, s, ClearStop).response == Success <==> s.latched && !s.externalTimedOut
  {
    hide Publish, Tick, Config.Valid;
  }

  /** Nothing passes while latched. */
  lemma LatchedIsSilent(t: Trig, c: Config, s: Gate, commands: Commands, now: real)
    requires c.Valid() && s.latched
    ensures Publish(t, c, s, commands, now) == Outcome(s, [], Success)
  {
    hide Filtered, Selected, DataReady;
  }

  /** While latched every control command published by any event is an emergency stop, and the
      latch is left only by a clear that succeeds, which none does while the external heartbeat is
      known to be lost. */
  lemma LatchedStep(t: Trig, c: Config, s: Gate, e: Event)
    requires c.Valid() && s.latched
    ensures OnlyStops(c, Step(t, c, s, e).published)
    ensures !Step(t, c, s, e).next.latched <==> e.ClearStop? && !s.externalTimedOut
    ensures e.ClearStop? ==> (Step(t, c, s, e).response == Success <==> !Step(t, c, s, e).next.latched)
  {
    hide Step, Publish, Tick, Received, Used, SourceOf, StopCommand, SameForFilter, Config.Valid;
    if IsCommand(e) {
      CommandStep(t, c, s, e);
      ReceivedKeeps(s, e);
      LatchedIsSilent(t, c, Received(s, e), SourceOf(Received(s, e), e), EventTime(e).value);
    } else if e.Timer? {
      TimerIsTick(t, c, s, e.now);
      TickStops(c, s, e.now);
    } else {
      QuietStep(t, c, s, e);
      LatchAfterQuiet(t, c, s, e);
      ClearOutcome(t, c, s);
    }
  }

  datatype Trace = Trace(last: Gate, published: seq<Published>)

  function Run(t: Trig, c: Config, start: Gate, events: seq<Event>): Trace
    requires c.Valid()
  {
    if events == [] then Trace(start, [])
    else
      var before := Run(t, c, start, events[..|events| - 1]);
      var o := Step(t, c, before.last, events[|events| - 1]);
      Trace(o.next, before.published + o.published)
  }

  /** Nothing about lost heartbeats and the latch differs. */
  predicate SameFlags(a: Gate, b: Gate) {
    a.latched == b.latched && a.externalTimedOut == b.externalTimedOut && a.systemTimedOut == b.systemTimedOut &&
    a.systemHeartbeat == b.systemHeartbeat
  }

  lemma ReceivedKeepsFlags(s: Gate, e: Event)
    ensures SameFlags(Received(s, e), s)
  {
  }

  lemma PublishKeepsFlags(t: Trig, c: Config, s: Gate, commands: Commands, now: real)
    requires c.Valid()
    ensures SameFlags(Publish(t, c, s, commands, now).next, s)
  {
    hide Filtered, Selected, DataReady, InEmergency, AfterPublish, Config.Valid;
    PublishIs(t, c, s, commands, now);
    AfterPublishKeepsFlags(s, Filtered(t, c, s, Selected(c, s, commands), now), now);
  }

  lemma AfterPublishKeepsFlags(s: Gate, out: Command, now: real)
    ensures SameFlags(AfterPublish(s, out, now), s)
  {
    hide NextPrevious;
  }

  lemma QuietKeepsFlags(t: Trig, c: Config, s: Gate, e: Event)
    requires c.Valid() && !IsCommand(e) && !e.Timer?
    ensures var n := Step(t, c, s, e).next;
            n.externalTimedOut == s.externalTimedOut && n.systemTimedOut == s.systemTimedOut &&
            (!e.MrmState? ==> n.systemHeartbeat == s.systemHeartbeat)
  {
    hide Publish, Tick, Clear, Config.Valid;
    match e
    case AutoAuxiliary(_) =>
    case RemoteAuxiliary(_) =>
    case EmergencyAuxiliary(_, _) =>
    case ExternalHeartbeat(_) =>
    case MrmState(_, _) =>
    case GateModeMessage(_) =>
    case Engage(_) =>
    case Pause(_) =>
    case OperationMode(_, _) =>
    case Steering(_) =>
    case GearStatus(_) =>
    case SetStop =>
    case ClearStop => ClearKeeps(s);
  }

  lemma ClearKeeps(s: Gate)
    ensures var n := Clear(s).next;
            n.externalTimedOut == s.externalTimedOut && n.systemTimedOut == s.systemTimedOut &&
            n.systemHeartbeat == s.systemHeartbeat
  {
  }

  // ----- loss of the system heartbeat -----

  lemma LossIsSilent(t: Trig, c: Config, s: Gate, commands: Commands, now: real)
    requires c.Valid() && c.useEmergencyHandling && s.systemTimedOut
    ensures Publish(t, c, s, commands, now) == Outcome(s, [], Success)
  {
    hide Filtered, Selected, DataReady;
  }

  /** A tick that finds the heartbeat still lost publishes the stop, if anything. */
  lemma LossTick(c: Config, s: Gate, now: real)
    requires c.useEmergencyHandling && s.systemTimedOut
    requires HeartbeatTimeout(s.systemHeartbeat, c.systemTimeout, now)
    ensures Tick(c, s, now).next.systemTimedOut && Tick(c, s, now).next.systemHeartbeat == s.systemHeartbeat
  {
    hide HeartbeatTimeout, EmergencyStop, DataReady;
  }

  lemma SystemLossStep(t: Trig, c: Config, s: Gate, e: Event)
    requires c.Valid() && c.useEmergencyHandling && s.systemTimedOut
    requires e.Timer? ==> HeartbeatTimeout(s.systemHeartbeat, c.systemTimeout, e.now)
    ensures Step(t, c, s, e).next.systemTimedOut && OnlyStops(c, Step(t, c, s, e).published)
    ensures !e.MrmState? ==> Step(t, c, s, e).next.systemHeartbeat == s.systemHeartbeat
  {
    hide Step, Publish, Tick, Received, Used, SourceOf, StopCommand, SameForFilter, Config.Valid, HeartbeatTimeout;
    if IsCommand(e) {
      CommandStep(t, c, s, e);
      ReceivedKeepsFlags(s, e);
      LossIsSilent(t, c, Received(s, e), SourceOf(Received(s, e), e), EventTime(e).value);
    } else if e.Timer? {
      TimerIsTick(t, c, s, e.now);
      TickStops(c, s, e.now);
      LossTick(c, s, e.now);
    } else {
      QuietStep(t, c, s, e);
      QuietKeepsFlags(t, c, s, e);
    }
  }

  /** Every tick of the run finds the system heartbeat lost. */
  predicate NeverRecovered(t: Trig, c: Config, start: Gate, events: seq<Event>)
    requires c.Valid()
  {
    forall i :: 0 <= i < |events| && events[i].Timer? ==>
      HeartbeatTimeout(Run(t, c, start, events[..i]).last.systemHeartbeat, c.systemTimeout, events[i].now)
  }

  /** Once a tick has seen the loss of the system heartbeat, only emergency stops are published until a
      tick finds it again, over any interleaving of events. */
  lemma {:induction false} SystemLossPublishesStops(t: Trig, c: Config, start: Gate, events: seq<Event>)
    requires c.Valid() && c.useEmergencyHandling && start.systemTimedOut && NeverRecovered(t, c, start, events)
    ensures Run(t, c, start, events).last.systemTimedOut && OnlyStops(c, Run(t, c, start, events).published)
  {
    hide Step, StopCommand, HeartbeatTimeout, Config.Valid;
    if events != [] {
      var n := |events| - 1;
      var init := events[..n];
      assert forall i :: 0 <= i < n ==> init[..i] == events[..i];
      SystemLossPublishesStops(t, c, start, init);
      SystemLossStep(t, c, Run(t, c, start, init).last, events[n]);
    }
  }

  lemma LossLasts(received: Option<real>, timeout: real, now: real, later: real)
    requires HeartbeatTimeout(received, timeout, now) && now <= later
    ensures HeartbeatTimeout(received, timeout, later)
  {
  }

  /** Without a message from the emergency handler no later tick finds it again. */
  lemma {:induction false} SilenceIsLoss(t: Trig, c: Config, start: Gate, events: seq<Event>, now: real)
    requires c.Valid() && c.useEmergencyHandling && start.systemTimedOut
    requires HeartbeatTimeout(start.systemHeartbeat, c.systemTimeout, now)
    requires forall e :: e in events ==> !e.MrmState? && (e.Timer? ==> now <= e.now)
    ensures NeverRecovered(t, c, start, events)
    ensures Run(t, c, start, events).last.systemHeartbeat == start.systemHeartbeat
  {
    hide Step, HeartbeatTimeout, Config.Valid;
    if events != [] {
      var n := |events| - 1;
      var init := events[..n];
      assert forall i :: 0 <= i < n ==> init[..i] == events[..i];
      SilenceIsLoss(t, c, start, init, now);
      SystemLossPublishesStops(t, c, start, init);
      assert events[n] in events;
      if events[n].Timer? { LossLasts(start.systemHeartbeat, c.systemTimeout, now, events[n].now); }
      SystemLossStep(t, c, Run(t, c, start, init).last, events[n]);
    }
  }

  // ----- loss of the external heartbeat -----

  predicate LossIsLatched(s: Gate) {
    s.externalTimedOut ==> s.latched
  }

  lemma StepKeepsLossLatched(t: Trig, c: Config, s: Gate, e: Event)
    requires c.Valid() && LossIsLatched(s)
    ensures LossIsLatched(Step(t, c, s, e).next)
  {
    hide Step, Publish, Tick, Received, Used, SourceOf, Config.Valid;
    if IsCommand(e) {
      var s' := Received(s, e);
      CommandStep(t, c, s, e);
      ReceivedKeepsFlags(s, e);
      PublishKeepsFlags(t, c, s', SourceOf(s', e), EventTime(e).value);
    } else if e.Timer? {
      TimerIsTick(t, c, s, e.now);
      TickKeepsLossLatched(c, s, e.now);
    } else {
      LatchAfterQuiet(t, c, s, e);
      QuietKeepsFlags(t, c, s, e);
    }
  }

  lemma TickKeepsLossLatched(c: Config, s: Gate, now: real)
    requires LossIsLatched(s)
    ensures LossIsLatched(Tick(c, s, now).next)
  {
    hide AuxiliaryOf, DataReady, EmergencyStop, AfterSystemCheck, AfterExternalCheck;
    SystemCheckKeepsLatched(c, s, now);
    ExternalCheckKeepsLatched(c, AfterSystemCheck(c, s, now), now);
  }

  lemma SystemCheckKeepsLatched(c: Config, s: Gate, now: real)
    requires LossIsLatched(s)
    ensures LossIsLatched(AfterSystemCheck(c, s, now))
  {
    hide HeartbeatTimeout;
  }

  lemma ExternalCheckKeepsLatched(c: Config, s: Gate, now: real)
    requires LossIsLatched(s)
    ensures LossIsLatched(AfterExternalCheck(c, s, now))
  {
    hide HeartbeatTimeout;
  }

  /** In every reachable state a lost external heartbeat implies the latch. */
  lemma {:induction false} LossLatchedInEveryRun(t: Trig, c: Config, events: seq<Event>)
    requires c.Valid()
    ensures LossIsLatched(Run(t, c, INITIAL, events).last)
  {
    hide Step;
    if events != [] {
      var init := events[..|events| - 1];
      LossLatchedInEveryRun(t, c, init);
      StepKeepsLossLatched(t, c, Run(t, c, INITIAL, init).last, events[|events| - 1]);
    }
  }

  /** No event of the run clears the stop: a clear comes only while the heartbeat is known lost. */
  predicate NeverCleared(t: Trig, c: Config, start: Gate, events: seq<Event>)
    requires c.Valid()
  {
    forall i :: 0 <= i < |events| && events[i].ClearStop? ==> Run(t, c, start, events[..i]).last.externalTimedOut
  }

  /** From the moment of latching to the next successful clear, over any interleaving of events,
      only emergency stops are published. */
  lemma {:induction false} StopsUntilCleared(t: Trig, c: Config, start: Gate, events: seq<Event>)
    requires c.Valid() && start.latched && NeverCleared(t, c, start, events)
    ensures Run(t, c, start, events).last.latched && OnlyStops(c, Run(t, c, start, events).published)
  {
    hide Step, StopCommand;
    if events != [] {
      var n := |events| - 1;
      var init := events[..n];
      assert forall i :: 0 <= i < n ==> init[..i] == events[..i];
      StopsUntilCleared(t, c, start, init);
      LatchedStep(t, c, Run(t, c, start, init).last, events[n]);
    }
  }

  /** A tick that finds the external heartbeat lost latches the stop and publishes it at once. */
  lemma LossLatches(t: Trig, c: Config, s: Gate, now: real)
    requires c.Valid() && c.checkExternalHeartbeat && DataReady(c, s) && c.externalTimeout != 0.0
    requires c.useEmergencyHandling ==> !HeartbeatTimeout(s.systemHeartbeat, c.systemTimeout, now)
    ensures var o := Step(t, c, s, Timer(now));
            (o.next.externalTimedOut <==> now - s.externalHeartbeat.value > c.externalTimeout) &&
            (o.next.externalTimedOut ==>
              o.next.latched && |o.published| > 0 && o.published[0].Control? && OnlyStops(c, o.published))
  {
  }

  // ----- filtered commands over runs -----

  /** Time does not run backwards between commands. */
  predicate Forward(s: Gate, e: Event) {
    EventTime(e).Some? && s.lastTime.Some? ==> s.lastTime.value <= EventTime(e).value
  }

  /** A published control command that is not the emergency stop is a filtered one. */
  predicate IsLimited(p: Param, previous: Command, dt: real, out: Command) {
    && WithinLimits(p, out)
    && Abs(out.speed - previous.speed) <= SpeedReach(p, dt)
    && Abs(out.acceleration - previous.acceleration) <= JerkReach(p, dt)
  }

  /** Every control command of a step is an emergency stop or is limited against the previous
      filtered one. */
  predicate StepLimited(c: Config, s: Gate, e: Event, o: Outcome) {
    forall i :: 0 <= i < |o.published| && o.published[i].Control? ==>
      StopCommand(c, o.published[i]) ||
      (EventTime(e).Some? &&
       IsLimited(ParamOf(c, s), s.previous, Dt(s, EventTime(e).value), o.published[i].command))
  }

  lemma PublishLimited(t: Trig, c: Config, s: Gate, commands: Commands, now: real)
    requires c.Valid() && c.Sane() && WithinLimits(ParamOf(c, s), s.previous)
    requires s.lastTime.Some? ==> s.lastTime.value <= now
    ensures var o := Publish(t, c, s, commands, now);
            WithinLimits(ParamOf(c, o.next), o.next.previous) &&
            (o.published != [] ==>
              |o.published| == 1 && o.published[0].Control? &&
              o.next.previous.speed == o.published[0].command.speed &&
              o.next.previous.acceleration == o.published[0].command.acceleration &&
              IsLimited(ParamOf(c, s), s.previous, Dt(s, now), o.published[0].command))
  {
    hide FilterAll, Selected, SpeedReach, JerkReach, Abs;
    FilterLimits(t, ParamOf(c, s), s.previous, Dt(s, now), s.steer, Selected(c, s, commands));
  }

  /** What a step keeps, and that its commands are stops or limited. */
  predicate StaysLimited(t: Trig, c: Config, s: Gate, e: Event)
    requires c.Valid()
  {
    var o := Step(t, c, s, e);
    && StepLimited(c, s, e, o) && o.next.inTransition == s.inTransition
    && WithinLimits(ParamOf(c, o.next), o.next.previous)
  }

  lemma CommandStaysLimited(t: Trig, c: Config, s: Gate, e: Event)
    requires c.Valid() && c.Sane() && WithinLimits(ParamOf(c, s), s.previous) && Forward(s, e) && IsCommand(e)
    ensures StaysLimited(t, c, s, e)
  {
    hide Step, Publish, Received, Used, SourceOf, WithinLimits, IsLimited, Config.Valid, Config.Sane, EventTime;
    var s', now := Received(s, e), EventTime(e).value;
    CommandStep(t, c, s, e);
    ReceivedKeeps(s, e);
    PublishLimited(t, c, s', SourceOf(s', e), now);
    PublishKeepsMode(t, c, s', SourceOf(s', e), now);
  }

  lemma StepStaysLimited(t: Trig, c: Config, s: Gate, e: Event)
    requires c.Valid() && c.Sane() && WithinLimits(ParamOf(c, s), s.previous) && Forward(s, e)
    requires e.OperationMode? ==> e.transition == s.inTransition
    ensures StaysLimited(t, c, s, e)
  {
    hide Step, Tick, WithinLimits, IsLimited, StopCommand, Config.Valid, Config.Sane;
    if IsCommand(e) {
      CommandStaysLimited(t, c, s, e);
    } else if e.Timer? {
      TimerIsTick(t, c, s, e.now);
      TickStops(c, s, e.now);
    } else {
      QuietStep(t, c, s, e);
    }
  }

  lemma PublishKeepsMode(t: Trig, c: Config, s: Gate, commands: Commands, now: real)
    requires c.Valid()
    ensures var n := Publish(t, c, s, commands, now).next;
            n.inTransition == s.inTransition && n.engaged == s.engaged && n.paused == s.paused
  {
    hide Filtered, Selected, DataReady;
  }

  /** Time runs forward and the same parameter set stays selected. */
  predicate Steady(t: Trig, c: Config, start: Gate, events: seq<Event>)
    requires c.Valid()
  {
    && (forall i :: 0 <= i < |events| ==> Forward(Run(t, c, start, events[..i]).last, events[i]))
    && (forall i :: 0 <= i < |events| && events[i].OperationMode? ==> events[i].transition == start.inTransition)
  }

  lemma SteadyBefore(t: Trig, c: Config, start: Gate, events: seq<Event>, n: nat)
    requires c.Valid() && n <= |events| && Steady(t, c, start, events)
    ensures Steady(t, c, start, events[..n])
  {
    hide Forward, Run;
    assert forall i :: 0 <= i < n ==> events[..n][..i] == events[..i];
  }

  lemma {:induction false} LimitsKept(t: Trig, c: Config, start: Gate, events: seq<Event>)
    requires c.Valid() && c.Sane() && WithinLimits(ParamOf(c, start), start.previous) && Steady(t, c, start, events)
    ensures var last := Run(t, c, start, events).last;
            WithinLimits(ParamOf(c, last), last.previous) && last.inTransition == start.inTransition
  {
    hide Step, StepLimited, WithinLimits, Forward, Config.Valid, Config.Sane, ParamOf, IsCommand;
    if events != [] {
      var n := |events| - 1;
      SteadyBefore(t, c, start, events, n);
      LimitsKept(t, c, start, events[..n]);
      StepStaysLimited(t, c, Run(t, c, start, events[..n]).last, events[n]);
    }
  }

  /** Over any such run of the gate every step publishes only emergency stops and commands limited
      against the previous filtered command. */
  lemma GateRunStaysLimited(t: Trig, c: Config, start: Gate, events: seq<Event>)
    requires c.Valid() && c.Sane() && WithinLimits(ParamOf(c, start), start.previous) && Steady(t, c, start, events)
    ensures var last := Run(t, c, start, events).last;
            WithinLimits(ParamOf(c, last), last.previous) && last.inTransition == start.inTransition
    ensures forall i :: 0 <= i < |events| ==>
      var s := Run(t, c, start, events[..i]).last;
      StepLimited(c, s, events[i], Step(t, c, s, events[i]))
  {
    hide Run, Step, StepLimited, WithinLimits, Forward, Config.Valid, Config.Sane, ParamOf, IsCommand;
    LimitsKept(t, c, start, events);
    forall i | 0 <= i < |events|
      ensures var s := Run(t, c, start, events[..i]).last;
              StepLimited(c, s, events[i], Step(t, c, s, events[i]))
    {
      SteadyBefore(t, c, start, events, i);
      LimitsKept(t, c, start, events[..i]);
      StepStaysLimited(t, c, Run(t, c, start, events[..i]).last, events[i]);
    }
  }

  lemma InitialWithinLimits(c: Config)
    requires c.Valid() && c.Sane()
    ensures WithinLimits(ParamOf(c, INITIAL), INITIAL.previous)
  {
  }

  // ----- stopping -----

  /** Paused or not engaged. */
  predicate Halted(s: Gate) { s.paused || !s.engaged }

  /** A published command then brakes towards zero at the limit. */
  lemma PausedOrDisengagedBrakes(t: Trig, c: Config, s: Gate, commands: Commands, now: real)
    requires c.Valid() && c.Sane() && WithinLimits(ParamOf(c, s), s.previous) && Halted(s)
    requires s.lastTime.Some? ==> s.lastTime.value <= now
    ensures var o := Publish(t, c, s, commands, now);
            if o.published == [] then o.next == s
            else
              o.next.lastTime == Some(now) &&
              Abs(o.next.previous.speed) ==
              Max(0.0, Abs(s.previous.speed) - SpeedReach(ParamOf(c, s), Dt(s, now)))
  {
    hide FilterAll, SpeedReach, Abs, Max, DataReady;
    LimitedSpeed(ParamOf(c, s), s.previous);
    ZeroSpeedBrakes(t, ParamOf(c, s), s.previous, Dt(s, now), s.steer, Selected(c, s, commands));
  }

  /** The time between the last commands of two states. */
  function Between(s: Gate, n: Gate): real
    requires s.lastTime.Some? && n.lastTime.Some?
  {
    n.lastTime.value - s.lastTime.value
  }

  /** The speed of n is the one of s less the limit times the time between, never below zero. */
  predicate Brakes(c: Config, s: Gate, n: Gate)
    requires s.lastTime.Some?
  {
    && n.lastTime.Some? && Between(s, n) >= 0.0
    && Abs(n.previous.speed) == Braked(ParamOf(c, s), Abs(s.previous.speed), Between(s, n))
  }

  lemma NoTimeNoBraking(c: Config, s: Gate, n: Gate)
    requires s.lastTime.Some? && n.lastTime == s.lastTime && n.previous == s.previous
    ensures Brakes(c, s, n)
  {
    assert ParamOf(c, s).lonAccLim * 0.0 == 0.0;
  }

  lemma HaltedCommand(t: Trig, c: Config, s: Gate, e: Event)
    requires c.Valid() && c.Sane() && WithinLimits(ParamOf(c, s), s.previous) && Forward(s, e) && Halted(s)
    requires s.lastTime.Some? && IsCommand(e)
    ensures Brakes(c, s, Step(t, c, s, e).next)
  {
    hide Step, Publish, Received, Used, SourceOf, WithinLimits, Config.Valid, Config.Sane, EventTime, Abs, Max, Brakes;
    var s', now := Received(s, e), EventTime(e).value;
    CommandStep(t, c, s, e);
    ReceivedKeeps(s, e);
    PausedOrDisengagedBrakes(t, c, s', SourceOf(s', e), now);
    var n := Step(t, c, s, e).next;
    if n == s' { NoTimeNoBraking(c, s, n); } else { BrakesFor(c, s, n, now); }
  }

  lemma BrakesFor(c: Config, s: Gate, n: Gate, now: real)
    requires s.lastTime.Some? && n.lastTime == Some(now) && s.lastTime.value <= now
    requires Abs(n.previous.speed) == Max(0.0, Abs(s.previous.speed) - SpeedReach(ParamOf(c, s), Dt(s, now)))
    ensures Brakes(c, s, n)
  {
  }

  lemma HaltedStep(t: Trig, c: Config, s: Gate, e: Event)
    requires c.Valid() && c.Sane() && WithinLimits(ParamOf(c, s), s.previous) && Forward(s, e) && Halted(s)
    requires s.lastTime.Some?
    ensures Brakes(c, s, Step(t, c, s, e).next)
  {
    hide Step, Tick, WithinLimits, Config.Valid, Config.Sane, Brakes;
    if IsCommand(e) {
      HaltedCommand(t, c, s, e);
    } else {
      if e.Timer? {
        TimerIsTick(t, c, s, e.now);
        TickStops(c, s, e.now);
      } else {
        QuietStep(t, c, s, e);
      }
      NoTimeNoBraking(c, s, Step(t, c, s, e).next);
    }
  }

  /** Every event of the run finds the gate paused or not engaged. */
  predicate HaltedThroughout(t: Trig, c: Config, start: Gate, events: seq<Event>)
    requires c.Valid()
  {
    forall i :: 0 <= i < |events| ==> Halted(Run(t, c, start, events[..i]).last)
  }

  lemma BrakesOn(c: Config, s: Gate, m: Gate, n: Gate)
    requires c.Sane() && s.lastTime.Some? && Brakes(c, s, m) && Brakes(c, m, n) && m.inTransition == s.inTransition
    ensures Brakes(c, s, n)
  {
    hide Max, Abs;
    StepsAdd(ParamOf(c, s), Abs(s.previous.speed), Between(s, m), Between(m, n), Between(s, n));
    assert Braked(ParamOf(c, s), Abs(m.previous.speed), Between(m, n)) ==
           Max(0.0, Abs(m.previous.speed) - SpeedReach(ParamOf(c, s), Between(m, n)));
  }

  /** Over any interleaving of events that finds the gate paused or not engaged, the speed is the
      initial one less the limit times the time passed between commands, never below zero. */
  lemma {:induction false} HaltedRunBrakes(t: Trig, c: Config, start: Gate, events: seq<Event>)
    requires c.Valid() && c.Sane() && WithinLimits(ParamOf(c, start), start.previous) && Steady(t, c, start, events)
    requires start.lastTime.Some? && HaltedThroughout(t, c, start, events)
    ensures Brakes(c, start, Run(t, c, start, events).last)
  {
    hide Step, WithinLimits, Forward, Config.Valid, Config.Sane, ParamOf, Brakes, Halted;
    if events == [] {
      NoTimeNoBraking(c, start, start);
    } else {
      var n := |events| - 1;
      var init := events[..n];
      assert forall i :: 0 <= i < n ==> init[..i] == events[..i];
      HaltedRunBrakes(t, c, start, init);
      LimitsKept(t, c, start, init);
      BrakesAsLast(c, start, Run(t, c, start, init).last);
      HaltedStep(t, c, Run(t, c, start, init).last, events[n]);
      BrakesOn(c, start, Run(t, c, start, init).last, Run(t, c, start, events).last);
    }
  }

  lemma BrakesAsLast(c: Config, s: Gate, n: Gate)
    requires s.lastTime.Some? && Brakes(c, s, n)
    ensures n.lastTime.Some?
  {
  }

  /** So the vehicle is stopped once the limit times that time has reached the initial speed. */
  lemma HaltedRunStops(t: Trig, c: Config, start: Gate, events: seq<Event>)
    requires c.Valid() && c.Sane() && WithinLimits(ParamOf(c, start), start.previous) && Steady(t, c, start, events)
    requires start.lastTime.Some? && HaltedThroughout(t, c, start, events)
    ensures var last := Run(t, c, start, events).last;
            last.lastTime.Some? &&
            (ParamOf(c, start).lonAccLim * Between(start, last) >= Abs(start.previous.speed) <==>
             last.previous.speed == 0.0)
  {
    hide Run, Steady, HaltedThroughout, WithinLimits, Config.Valid, Config.Sane, ParamOf;
    HaltedRunBrakes(t, c, start, events);
  }

  /** A paused gate that is not resumed, and a gate that is not engaged, stay so. */
  lemma {:induction false} StaysHalted(t: Trig, c: Config, start: Gate, events: seq<Event>)
    requires c.Valid()
    requires (start.paused && Pause(false) !in events) || (!start.engaged && Engage(true) !in events)
    ensures HaltedThroughout(t, c, start, events)
    ensures start.paused && Pause(false) !in events ==> Run(t, c, start, events).last.paused
    ensures !start.engaged && Engage(true) !in events ==> !Run(t, c, start, events).last.engaged
  {
    hide Step, Config.Valid;
    if events != [] {
      var n := |events| - 1;
      var init := events[..n];
      assert forall i :: 0 <= i < n ==> init[..i] == events[..i];
      StaysHalted(t, c, start, init);
      assert events[n] in events;
      SwitchesAfter(t, c, Run(t, c, start, init).last, events[n]);
      assert Run(t, c, start, events).last == Step(t, c, Run(t, c, start, init).last, events[n]).next;
    }
  }

  /** Only their own messages change the two switches. */
  lemma SwitchesAfter(t: Trig, c: Config, s: Gate, e: Event)
    requires c.Valid()
    ensures var n := Step(t, c, s, e).next;
            n.paused == (if e.Pause? then e.pause else s.paused) &&
            n.engaged == (if e.Engage? then e.engage else s.engaged)
  {
    hide Step, Publish, Tick, Received, Used, SourceOf, Config.Valid;
    if IsCommand(e) {
      var s' := Received(s, e);
      CommandStep(t, c, s, e);
      ReceivedKeeps(s, e);
      PublishKeepsMode(t, c, s', SourceOf(s', e), EventTime(e).value);
    } else if e.Timer? {
      TimerIsTick(t, c, s, e.now);
      TickStops(c, s, e.now);
    } else {
      QuietStep(t, c, s, e);
    }
  }

  lemma LimitedSpeed(p: Param, c: Command)
    requires WithinLimits(p, c)
    ensures Abs(c.speed) <= p.velLim
  {
  }

  // ----- the node -----

  lemma TimerIsTick(t: Trig, c: Config, s: Gate, now: real)
    requires c.Valid()
    ensures Step(t, c, s, Timer(now)) == Tick(c, s, now)
  {
    hide Tick;
  }

  lemma PublishIs(t: Trig, c: Config, s: Gate, commands: Commands, now: real)
    requires c.Valid()
    ensures Publish(t, c, s, commands, now) ==
      if (c.useEmergencyHandling && s.systemTimedOut) || s.latched || !DataReady(c, s) then Outcome(s, [], Success)
      else
        var out := Filtered(t, c, s, Selected(c, s, commands), now);
        Outcome(AfterPublish(s, out, now), [Control(out, InEmergency(c, s))], Success)
  {
    hide Filtered, AfterPublish, Selected, DataReady, InEmergency;
  }

  class VehicleCmdGate {
    const t: Trig
    const config: Config
    const filter: VehicleCmdFilter
    const filterOnTransition: VehicleCmdFilter

    var isEngaged: bool
    var isSystemEmergency: bool
    var isExternalEmergencyStop: bool
    var isGateModeChanged: bool
    var isEmergencyStateHeartbeatTimeout: bool
    var isExternalEmergencyStopHeartbeatTimeout: bool
    var emergencyStateHeartbeatReceivedTime: Option<real>
    var externalEmergencyStopHeartbeatReceivedTime: Option<real>
    var currentGateMode: GateMode
    var isAutonomous: bool
    var isInTransition: bool
    var isPaused: bool
    var currentSteer: real
    var currentGear: Option<Signal>
    var autoCommands: Commands
    var remoteCommands: Commands
    var emergencyCommands: Commands
    var prevControlCmd: Command
    var prevTime: Option<real>
    var outbox: seq<Published>

    /** Both filters compare with the same previous command. */
    ghost predicate Valid()
      reads this, filter, filterOnTransition
    {
      && config.Valid() && filter != filterOnTransition
      && filter.t == filterOnTransition.t == t
      && filter.param == config.nominal && filterOnTransition.param == config.onTransition
      && filter.prevCmd == filterOnTransition.prevCmd
    }

    ghost function View(): Gate
      reads this, filter, filterOnTransition
    {
      Gate(isEngaged, isSystemEmergency, isExternalEmergencyStop, isGateModeChanged,
           isEmergencyStateHeartbeatTimeout, isExternalEmergencyStopHeartbeatTimeout,
           emergencyStateHeartbeatReceivedTime, externalEmergencyStopHeartbeatReceivedTime,
           currentGateMode, isAutonomous, isInTransition, isPaused, currentSteer, currentGear,
           autoCommands, remoteCommands, emergencyCommands, filter.prevCmd, prevControlCmd, prevTime)
    }

    constructor (t: Trig, config: Config)
      requires config.Valid()
      ensures Valid() && View() == INITIAL && outbox == []
      ensures !isEngaged && !isPaused && !isSystemEmergency && !isExternalEmergencyStop && !isGateModeChanged
      ensures !isAutonomous && !isInTransition && currentGateMode == AutoGate && prevTime.None?
      ensures emergencyStateHeartbeatReceivedTime.None? && externalEmergencyStopHeartbeatReceivedTime.None?
      ensures this.t == t && this.config == config && fresh(filter) && fresh(filterOnTransition)
    {
      var nominal := new VehicleCmdFilter(t, config.nominal);
      var onTransition := new VehicleCmdFilter(t, config.onTransition);
      this.t, this.config, filter, filterOnTransition := t, config, nominal, onTransition;
      isEngaged, isSystemEmergency, isExternalEmergencyStop, isGateModeChanged := false, false, false, false;
      isEmergencyStateHeartbeatTimeout, isExternalEmergencyStopHeartbeatTimeout := false, false;
      emergencyStateHeartbeatReceivedTime, externalEmergencyStopHeartbeatReceivedTime := None, None;
      currentGateMode, isAutonomous, isInTransition, isPaused := AutoGate, false, false, false;
      currentSteer, currentGear := 0.0, None;
      autoCommands, remoteCommands, emergencyCommands := DEFAULT_COMMANDS, DEFAULT_COMMANDS, DEFAULT_COMMANDS;
      prevControlCmd, prevTime, outbox := STOPPED, None, [];
    }

    method IsHeartbeatTimeout(received: Option<real>, timeout: real, now: real) returns (lost: bool)
      ensures lost == HeartbeatTimeout(received, timeout, now)
      ensures lost <==> timeout != 0.0 && (received.None? || now - received.value > timeout)
    {
      if timeout == 0.0 { return false; }
      if received.None? { return true; }
      var elapsed := now - received.value;
      lost := elapsed > timeout;
    }

    method IsDataReady() returns (ready: bool)
      ensures ready == DataReady(config, View())
    {
      if config.useEmergencyHandling && emergencyStateHeartbeatReceivedTime.None? { return false; }
      if config.checkExternalHeartbeat && externalEmergencyStopHeartbeatReceivedTime.None? { return false; }
      ready := true;
    }

    method OnAutoCtrlCmd(command: Command, now: real)
      requires Valid()
      modifies this, filter, filterOnTransition
      ensures Valid()
      ensures var o := Step(t, config, old(View()), AutoControl(command, now));
              View() == o.next && outbox == old(outbox) + o.published
    {
      hide Publish, Config.Valid;
      autoCommands := autoCommands.(control := command);
      if currentGateMode == AutoGate { PublishControlCommands(autoCommands, now); }
    }

    method OnRemoteCtrlCmd(command: Command, now: real)
      requires Valid()
      modifies this, filter, filterOnTransition
      ensures Valid()
      ensures var o := Step(t, config, old(View()), RemoteControl(command, now));
              View() == o.next && outbox == old(outbox) + o.published
    {
      hide Publish, Config.Valid;
      remoteCommands := remoteCommands.(control := command);
      if currentGateMode == ExternalGate { PublishControlCommands(remoteCommands, now); }
    }

    method OnEmergencyCtrlCmd(command: Command, now: real)
      requires Valid()
      modifies this, filter, filterOnTransition
      ensures Valid()
      ensures var o := Step(t, config, old(View()), EmergencyControl(command, now));
              View() == o.next && outbox == old(outbox) + o.published
    {
      hide Publish, Config.Valid;
      emergencyCommands := emergencyCommands.(control := command);
      if config.useEmergencyHandling && isSystemEmergency { PublishControlCommands(emergencyCommands, now); }
    }

    method PublishControlCommands(commands: Commands, now: real)
      requires Valid()
      modifies `prevControlCmd, `prevTime, `outbox, filter, filterOnTransition
      ensures Valid()
      ensures var o := Publish(t, config, old(View()), commands, now);
              View() == o.next && outbox == old(outbox) + o.published
    {
      hide Publish, Selected, DataReady, InEmergency, Filtered, AfterPublish, Config.Valid;
      PublishIs(t, config, View(), commands, now);
      var ready := IsDataReady();
      if (config.useEmergencyHandling && isEmergencyStateHeartbeatTimeout) || isExternalEmergencyStop || !ready {
        return;
      }
      var control, emergency := SelectControl(commands);
      PublishFiltered(control, emergency, now);
    }

    method PublishFiltered(input: Command, emergency: bool, now: real)
      requires Valid()
      modifies `prevControlCmd, `prevTime, `outbox, filter, filterOnTransition
      ensures Valid()
      ensures View() == AfterPublish(old(View()), Filtered(t, config, old(View()), input, now), now)
      ensures outbox == old(outbox) + [Control(Filtered(t, config, old(View()), input, now), emergency)]
    {
      hide FilterAll, TimeSince, Config.Valid;
      var control := FilterControlCommand(input, now);
      outbox := outbox + [Control(control, emergency)];
      prevControlCmd := control;
    }

    method SelectControl(commands: Commands) returns (control: Command, emergency: bool)
      ensures control == Selected(config, View(), commands) && emergency == InEmergency(config, View())
    {
      control := commands.control;
      emergency := config.useEmergencyHandling && isSystemEmergency;
      if emergency { control := emergencyCommands.control; }
      if !isEngaged { control := Command(currentSteer, 0.0, 0.0, config.stopHoldAcceleration); }
      if isPaused { control := control.(speed := 0.0, acceleration := config.stopHoldAcceleration); }
    }

    /** Applies the filter in use and lets both remember the result. */
    method FilterControlCommand(input: Command, now: real) returns (out: Command)
      requires Valid()
      modifies `prevTime, filter, filterOnTransition
      ensures Valid() && prevTime == Some(now)
      ensures out == FilterAll(t, if isInTransition then config.onTransition else config.nominal,
                               old(filter.prevCmd), TimeSince(old(prevTime), now), currentSteer, input)
      ensures filter.prevCmd == if isAutonomous then out else Command(currentSteer, 0.0, out.speed, out.acceleration)
    {
      hide FilterAll;
      var dt := GetDt(now);
      if isInTransition {
        out := filterOnTransition.FilterCommand(dt, currentSteer, input);
      } else {
        out := filter.FilterCommand(dt, currentSteer, input);
      }
      var prevValues := if isAutonomous then out else Command(currentSteer, 0.0, 0.0, 0.0);
      prevValues := prevValues.(speed := out.speed, acceleration := out.acceleration);
      filter.SetPrevCmd(prevValues);
      filterOnTransition.SetPrevCmd(prevValues);
    }

    method GetDt(now: real) returns (dt: real)
      modifies `prevTime
      ensures dt == TimeSince(old(prevTime), now) && prevTime == Some(now)
    {
      if prevTime.None? {
        prevTime := Some(now);
        return 0.0;
      }
      dt := now - prevTime.value;
      prevTime := Some(now);
    }

    method PublishEmergencyStopControlCommands()
      modifies `outbox
      ensures outbox == old(outbox) + EmergencyStop(config, old(View()))
    {
      var control := Command(prevControlCmd.steer, prevControlCmd.steerRate, 0.0, config.emergencyAcceleration);
      outbox := outbox + [Control(control, true), Aux(Auxiliary(NoCommand, Enable, NoCommand))];
    }

    method OnTimer(now: real) returns (response: Response)
      requires Valid()
      modifies `isEmergencyStateHeartbeatTimeout, `isExternalEmergencyStopHeartbeatTimeout
      modifies `isExternalEmergencyStop, `isGateModeChanged, `outbox
      ensures Valid()
      ensures var o := Step(t, config, old(View()), Timer(now));
              View() == o.next && outbox == old(outbox) + o.published && response == o.response
    {
      hide Step, HeartbeatTimeout, EmergencyStop, Config.Valid, AfterSystemCheck, AfterExternalCheck;
      hide AuxiliaryOf, DataReady;
      TimerIsTick(t, config, View(), now);
      response := Success;
      var ready := IsDataReady();
      if !ready { return; }
      CheckSystemHeartbeat(now);
      if config.useEmergencyHandling && isEmergencyStateHeartbeatTimeout {
        PublishEmergencyStopControlCommands();
        return;
      }
      CheckExternalHeartbeat(now);
      if isExternalEmergencyStop {
        PublishEmergencyStopControlCommands();
        return;
      }
      if isGateModeChanged {
        isGateModeChanged := false;
        return;
      }
      var aux := SelectAuxiliary();
      if aux.None? { return Thrown; }
      outbox := outbox + [Aux(aux.value)];
    }

    method CheckSystemHeartbeat(now: real)
      modifies `isEmergencyStateHeartbeatTimeout
      ensures View() == AfterSystemCheck(config, old(View()), now)
    {
      hide HeartbeatTimeout;
      if config.useEmergencyHandling {
        isEmergencyStateHeartbeatTimeout :=
          IsHeartbeatTimeout(emergencyStateHeartbeatReceivedTime, config.systemTimeout, now);
      }
    }

    method CheckExternalHeartbeat(now: real)
      modifies `isExternalEmergencyStopHeartbeatTimeout, `isExternalEmergencyStop
      ensures View() == AfterExternalCheck(config, old(View()), now)
    {
      hide HeartbeatTimeout;
      if config.checkExternalHeartbeat {
        isExternalEmergencyStopHeartbeatTimeout :=
          IsHeartbeatTimeout(externalEmergencyStopHeartbeatReceivedTime, config.externalTimeout, now);
        if isExternalEmergencyStopHeartbeatTimeout { isExternalEmergencyStop := true; }
      }
    }

    /** None stands for the exception on an unsupported gate mode. */
    method SelectAuxiliary() returns (aux: Option<Auxiliary>)
      ensures aux == AuxiliaryOf(config, View())
    {
      if config.useEmergencyHandling && isSystemEmergency { return Some(emergencyCommands.aux); }
      if currentGateMode == AutoGate {
        aux := Some(autoCommands.aux);
        if !isEngaged {
          aux := Some(Auxiliary(NoCommand, NoCommand, if currentGear.None? then NoCommand else currentGear.value));
        }
      } else if currentGateMode == ExternalGate {
        aux := Some(remoteCommands.aux);
      } else {
        aux := None;
      }
    }

    /** An emergency is an emergency stop that is operating or over. */
    method OnMrmState(phase: MrmPhase, behavior: MrmBehavior, now: real)
      requires Valid()
      modifies `isSystemEmergency, `emergencyStateHeartbeatReceivedTime
      ensures emergencyStateHeartbeatReceivedTime == Some(now)
      ensures isSystemEmergency <==>
        phase in {MrmOperating, MrmSucceeded, MrmFailed} && behavior == MrmEmergencyStop
      ensures Valid() && View() == Step(t, config, old(View()), MrmState(isSystemEmergency, now)).next
    {
      hide Publish, Tick, Clear, Config.Valid;
      isSystemEmergency :=
        (phase == MrmOperating || phase == MrmSucceeded || phase == MrmFailed) && behavior == MrmEmergencyStop;
      emergencyStateHeartbeatReceivedTime := Some(now);
    }

    method OnExternalEmergencyStopHeartbeat(now: real)
      requires Valid()
      modifies `externalEmergencyStopHeartbeatReceivedTime
      ensures externalEmergencyStopHeartbeatReceivedTime == Some(now)
      ensures Valid() && View() == Step(t, config, old(View()), ExternalHeartbeat(now)).next
    {
      hide Publish, Tick, Clear, Config.Valid;
      externalEmergencyStopHeartbeatReceivedTime := Some(now);
    }

    method OnGateMode(mode: GateMode)
      requires Valid()
      modifies `currentGateMode, `isGateModeChanged
      ensures currentGateMode == mode && isGateModeChanged
      ensures Valid() && View() == Step(t, config, old(View()), GateModeMessage(mode)).next
    {
      hide Publish, Tick, Clear, Config.Valid;
      currentGateMode := mode;
      isGateModeChanged := true;
    }

    method OnEngage(engage: bool)
      requires Valid()
      modifies `isEngaged
      ensures isEngaged == engage
      ensures Valid() && View() == Step(t, config, old(View()), Engage(engage)).next
    {
      hide Publish, Tick, Clear, Config.Valid;
      isEngaged := engage;
    }

    method OnPause(pause: bool)
      requires Valid()
      modifies `isPaused
      ensures isPaused == pause
      ensures Valid() && View() == Step(t, config, old(View()), Pause(pause)).next
    {
      hide Publish, Tick, Clear, Config.Valid;
      isPaused := pause;
    }

    method OnOperationMode(autonomous: bool, transition: bool)
      requires Valid()
      modifies `isAutonomous, `isInTransition
      ensures isAutonomous == autonomous && isInTransition == transition
      ensures Valid() && View() == Step(t, config, old(View()), OperationMode(autonomous, transition)).next
    {
      hide Publish, Tick, Clear, Config.Valid;
      isAutonomous, isInTransition := autonomous, transition;
    }

    method OnSteering(angle: real)
      requires Valid()
      modifies `currentSteer
      ensures currentSteer == angle
      ensures Valid() && View() == Step(t, config, old(View()), Steering(angle)).next
    {
      hide Publish, Tick, Clear, Config.Valid;
      currentSteer := angle;
    }

    method OnGearStatus(report: Signal)
      requires Valid()
      modifies `currentGear
      ensures currentGear == Some(report)
      ensures Valid() && View() == Step(t, config, old(View()), GearStatus(report)).next
    {
      hide Publish, Tick, Clear, Config.Valid;
      currentGear := Some(report);
    }

    /** The auxiliary messages of the three sources; the emergency source has no turn signals. */
    method OnAutoAuxiliary(aux: Auxiliary)
      requires Valid()
      modifies `autoCommands
      ensures autoCommands == Commands(old(autoCommands).control, aux)
      ensures Valid() && View() == Step(t, config, old(View()), AutoAuxiliary(aux)).next
    {
      hide Publish, Tick, Clear, Config.Valid;
      autoCommands := autoCommands.(aux := aux);
    }

    method OnRemoteAuxiliary(aux: Auxiliary)
      requires Valid()
      modifies `remoteCommands
      ensures remoteCommands == Commands(old(remoteCommands).control, aux)
      ensures Valid() && View() == Step(t, config, old(View()), RemoteAuxiliary(aux)).next
    {
      hide Publish, Tick, Clear, Config.Valid;
      remoteCommands := remoteCommands.(aux := aux);
    }

    method OnEmergencyAuxiliary(hazard: Signal, gear: Signal)
      requires Valid()
      modifies `emergencyCommands
      ensures emergencyCommands ==
        Commands(old(emergencyCommands).control, Auxiliary(old(emergencyCommands).aux.turn, hazard, gear))
      ensures Valid() && View() == Step(t, config, old(View()), EmergencyAuxiliary(hazard, gear)).next
    {
      hide Publish, Tick, Clear, Config.Valid;
      emergencyCommands := emergencyCommands.(aux := emergencyCommands.aux.(hazard := hazard, gear := gear));
    }

    method OnSetExternalEmergencyStopService() returns (response: Response)
      requires Valid()
      modifies `isExternalEmergencyStop
      ensures isExternalEmergencyStop && response == Success
      ensures Valid() && View() == Step(t, config, old(View()), SetStop).next
    {
      hide Publish, Tick, Clear, Config.Valid;
      isExternalEmergencyStop := true;
      response := Success;
    }

    method OnClearExternalEmergencyStopService() returns (response: Response)
      requires Valid()
      modifies `isExternalEmergencyStop
      ensures Valid()
      ensures isExternalEmergencyStop == (old(isExternalEmergencyStop) && isExternalEmergencyStopHeartbeatTimeout)
      ensures response ==
        if old(isExternalEmergencyStop) && !isExternalEmergencyStopHeartbeatTimeout then Success else Failure
      ensures var o := Step(t, config, old(View()), ClearStop); View() == o.next && response == o.response
    {
      hide Publish, Tick, Config.Valid;
      if isExternalEmergencyStop {
        if !isExternalEmergencyStopHeartbeatTimeout {
          isExternalEmergencyStop := false;
          response := Success;
        } else {
          response := Failure;
        }
      } else {
        response := Failure;
      }
    }

    method OnExternalEmergencyStopService(emergency: bool) returns (response: Response)
      requires Valid()
      modifies `isExternalEmergencyStop
      ensures Valid()
      ensures var o := Step(t, config, old(View()), if emergency then SetStop else ClearStop);
              View() == o.next && response == o.response
    {
      if emergency {
        response := OnSetExternalEmergencyStopService();
      } else {
        response := OnClearExternalEmergencyStopService();
      }
    }
  }
}
