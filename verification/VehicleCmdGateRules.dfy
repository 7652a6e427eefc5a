/** The rules of the gate, one by one: what a tick notices and publishes, which command is filtered, and
    what remains of it. */
module VehicleCmdGateRules {
  import opened Wrappers
  import opened Scalars
  import opened VehicleCmdFilter
  import opened VehicleCmdGate

  // ----- ticks -----

  /** A heartbeat that was received is lost when it is older than a timeout that is set. */
  predicate Lost(received: Option<real>, timeout: real, now: real) {
    received.Some? && timeout != 0.0 && now - received.value > timeout
  }

  /** Until every heartbeat in use has been received a tick does nothing. */
  lemma TickWaits(t: Trig, c: Config, s: Gate, now: real)
    requires c.Valid()
    requires (c.useEmergencyHandling && s.systemHeartbeat.None?) ||
             (c.checkExternalHeartbeat && s.externalHeartbeat.None?)
    ensures Step(t, c, s, Timer(now)) == Outcome(s, [], Success)
  {
    TimerIsTick(t, c, s, now);
  }

  /** A tick notices exactly whether the system heartbeat is lost, and publishes the stop if it is. */
  lemma SystemLossSeen(t: Trig, c: Config, s: Gate, now: real)
    requires c.Valid() && c.useEmergencyHandling && s.systemHeartbeat.Some?
    requires c.checkExternalHeartbeat ==> s.externalHeartbeat.Some?
    ensures var o := Step(t, c, s, Timer(now));
            (o.next.systemTimedOut <==> Lost(s.systemHeartbeat, c.systemTimeout, now)) &&
            o.next.systemHeartbeat == s.systemHeartbeat &&
            (o.next.systemTimedOut ==>
              |o.published| > 0 && o.published[0].Control? && OnlyStops(c, o.published) && o.response == Success)
  {
    hide AuxiliaryOf, AfterExternalCheck;
    TimerIsTick(t, c, s, now);
    ExternalCheckLeavesSystem(c, AfterSystemCheck(c, s, now), now);
  }

  lemma ExternalCheckLeavesSystem(c: Config, s: Gate, now: real)
    ensures var n := AfterExternalCheck(c, s, now);
            n.systemTimedOut == s.systemTimedOut && n.systemHeartbeat == s.systemHeartbeat
  {
    hide HeartbeatTimeout;
  }

  /** From the tick that finds the system heartbeat lost on, only emergency stops are published as long
      as the emergency handler is silent, over any interleaving of events. */
  lemma SystemLossStops(t: Trig, c: Config, s: Gate, now: real, events: seq<Event>)
    requires c.Valid() && c.useEmergencyHandling && Lost(s.systemHeartbeat, c.systemTimeout, now)
    requires c.checkExternalHeartbeat ==> s.externalHeartbeat.Some?
    requires forall e :: e in events ==> !e.MrmState? && (e.Timer? ==> now <= e.now)
    ensures var o := Step(t, c, s, Timer(now));
            o.published != [] && OnlyStops(c, o.published) && OnlyStops(c, Run(t, c, o.next, events).published)
  {
    hide Step, Run, Config.Valid, NeverRecovered, OnlyStops;
    SystemLossSeen(t, c, s, now);
    var n := Step(t, c, s, Timer(now)).next;
    SilenceIsLoss(t, c, n, events, now);
    SystemLossPublishesStops(t, c, n, events);
  }

  /** A tick that finds nothing lost or latched publishes the auxiliary commands of the source in use,
      except for the first one after a gate mode message. */
  lemma TickAuxiliary(t: Trig, c: Config, s: Gate, now: real)
    requires c.Valid() && !s.latched
    requires c.useEmergencyHandling ==> s.systemHeartbeat.Some? && !Lost(s.systemHeartbeat, c.systemTimeout, now)
    requires c.checkExternalHeartbeat ==>
               s.externalHeartbeat.Some? && !Lost(s.externalHeartbeat, c.externalTimeout, now)
    ensures var o := Step(t, c, s, Timer(now));
            && !o.next.latched && !o.next.gateModeChanged
            && (s.gateModeChanged ==> o.published == [] && o.response == Success)
            && (!s.gateModeChanged && c.useEmergencyHandling && s.systemEmergency ==>
                  o.published == [Aux(s.emergency.aux)])
            && (!s.gateModeChanged && !(c.useEmergencyHandling && s.systemEmergency) ==>
                  match s.gateMode
                  case AutoGate =>
                    o.published == [Aux(if s.engaged then s.auto.aux
                                        else Auxiliary(NoCommand, NoCommand,
                                                       if s.gear.Some? then s.gear.value else NoCommand))]
                  case ExternalGate => o.published == [Aux(s.remote.aux)]
                  case UnsupportedGate => o.published == [] && o.response == Thrown)
  {
    TimerIsTick(t, c, s, now);
    FreshChecks(c, s, now);
    hide AfterSystemCheck, AfterExternalCheck;
  }

  lemma FreshChecks(c: Config, s: Gate, now: real)
    requires !s.latched
    requires c.useEmergencyHandling ==> s.systemHeartbeat.Some? && !Lost(s.systemHeartbeat, c.systemTimeout, now)
    requires c.checkExternalHeartbeat ==>
               s.externalHeartbeat.Some? && !Lost(s.externalHeartbeat, c.externalTimeout, now)
    ensures DataReady(c, s)
    ensures var a := AfterSystemCheck(c, s, now);
            var b := AfterExternalCheck(c, a, now);
            a == s.(systemTimedOut := a.systemTimedOut) && !(c.useEmergencyHandling && a.systemTimedOut) &&
            b == a.(externalTimedOut := b.externalTimedOut)
  {
    hide AfterSystemCheck, AfterExternalCheck;
    FreshSystem(c, s, now);
    FreshExternal(c, AfterSystemCheck(c, s, now), now);
  }

  lemma FreshSystem(c: Config, s: Gate, now: real)
    requires c.useEmergencyHandling ==> s.systemHeartbeat.Some? && !Lost(s.systemHeartbeat, c.systemTimeout, now)
    ensures var a := AfterSystemCheck(c, s, now);
            a == s.(systemTimedOut := a.systemTimedOut) && !(c.useEmergencyHandling && a.systemTimedOut)
  {
    hide HeartbeatTimeout, Lost;
    if c.useEmergencyHandling { LostIsTimeout(s.systemHeartbeat, c.systemTimeout, now); }
    assert AfterSystemCheck(c, s, now) == if c.useEmergencyHandling then s.(systemTimedOut := false) else s;
  }

  lemma LostIsTimeout(received: Option<real>, timeout: real, now: real)
    requires received.Some?
    ensures HeartbeatTimeout(received, timeout, now) <==> Lost(received, timeout, now)
  {
  }

  lemma FreshExternal(c: Config, s: Gate, now: real)
    requires !s.latched
    requires c.checkExternalHeartbeat ==>
               s.externalHeartbeat.Some? && !Lost(s.externalHeartbeat, c.externalTimeout, now)
    ensures var b := AfterExternalCheck(c, s, now); b == s.(externalTimedOut := b.externalTimedOut)
  {
    hide HeartbeatTimeout, Lost;
    if c.checkExternalHeartbeat { LostIsTimeout(s.externalHeartbeat, c.externalTimeout, now); }
    assert AfterExternalCheck(c, s, now) == if c.checkExternalHeartbeat then s.(externalTimedOut := false) else s;
  }

  /** A tick with the stop latched publishes it. */
  lemma LatchedTick(t: Trig, c: Config, s: Gate, now: real)
    requires c.Valid() && s.latched
    requires c.useEmergencyHandling ==> s.systemHeartbeat.Some?
    requires c.checkExternalHeartbeat ==> s.externalHeartbeat.Some?
    ensures var o := Step(t, c, s, Timer(now));
            o.published == [Control(Command(s.lastControl.steer, s.lastControl.steerRate, 0.0, c.emergencyAcceleration),
                                    true),
                            Aux(Auxiliary(NoCommand, Enable, NoCommand))]
  {
    hide AuxiliaryOf, AfterSystemCheck, AfterExternalCheck, EmergencyStop;
    TimerIsTick(t, c, s, now);
    var a := AfterSystemCheck(c, s, now);
    SystemCheckKeepsLast(c, s, now);
    ExternalCheckKeepsLast(c, a, now);
    StopIs(c, a);
    StopIs(c, AfterExternalCheck(c, a, now));
  }

  lemma SystemCheckKeepsLast(c: Config, s: Gate, now: real)
    ensures var n := AfterSystemCheck(c, s, now); n.lastControl == s.lastControl && n.latched == s.latched
  {
    hide HeartbeatTimeout;
  }

  lemma ExternalCheckKeepsLast(c: Config, s: Gate, now: real)
    ensures var n := AfterExternalCheck(c, s, now);
            n.lastControl == s.lastControl && (s.latched ==> n.latched)
  {
    hide HeartbeatTimeout;
  }

  lemma StopIs(c: Config, s: Gate)
    ensures EmergencyStop(c, s) ==
            [Control(Command(s.lastControl.steer, s.lastControl.steerRate, 0.0, c.emergencyAcceleration), true),
             Aux(Auxiliary(NoCommand, Enable, NoCommand))]
  {
  }

  // ----- messages -----

  /** Messages change what they are about and nothing else, and publish nothing. */
  lemma AuxiliariesAreStored(t: Trig, c: Config, s: Gate, aux: Auxiliary)
    requires c.Valid()
    ensures Step(t, c, s, AutoAuxiliary(aux)) == Outcome(s.(auto := Commands(s.auto.control, aux)), [], Success)
    ensures Step(t, c, s, RemoteAuxiliary(aux)) == Outcome(s.(remote := Commands(s.remote.control, aux)), [], Success)
    ensures var kept := Auxiliary(s.emergency.aux.turn, aux.hazard, aux.gear);
            Step(t, c, s, EmergencyAuxiliary(aux.hazard, aux.gear)) ==
            Outcome(s.(emergency := Commands(s.emergency.control, kept)), [], Success)
  {
    hide Publish, Tick, Clear, Config.Valid;
  }

  lemma HeartbeatsAreStored(t: Trig, c: Config, s: Gate, emergency: bool, now: real)
    requires c.Valid()
    ensures Step(t, c, s, ExternalHeartbeat(now)) == Outcome(s.(externalHeartbeat := Some(now)), [], Success)
    ensures Step(t, c, s, MrmState(emergency, now)) ==
            Outcome(s.(systemEmergency := emergency, systemHeartbeat := Some(now)), [], Success)
  {
    hide Publish, Tick, Clear, Config.Valid;
  }

  lemma SwitchesAreStored(t: Trig, c: Config, s: Gate, b: bool, d: bool, mode: GateMode)
    requires c.Valid()
    ensures Step(t, c, s, GateModeMessage(mode)) ==
            Outcome(s.(gateMode := mode, gateModeChanged := true), [], Success)
    ensures Step(t, c, s, Engage(b)) == Outcome(s.(engaged := b), [], Success)
    ensures Step(t, c, s, Pause(b)) == Outcome(s.(paused := b), [], Success)
    ensures Step(t, c, s, OperationMode(b, d)) == Outcome(s.(autonomous := b, inTransition := d), [], Success)
  {
    hide Publish, Tick, Clear, Config.Valid;
  }

  lemma ReportsAreStored(t: Trig, c: Config, s: Gate, angle: real, gear: Signal)
    requires c.Valid()
    ensures Step(t, c, s, Steering(angle)) == Outcome(s.(steer := angle), [], Success)
    ensures Step(t, c, s, GearStatus(gear)) == Outcome(s.(gear := Some(gear)), [], Success)
    ensures Step(t, c, s, SetStop) == Outcome(s.(latched := true), [], Success)
  {
    hide Publish, Tick, Clear, Config.Valid;
  }

  // ----- commands -----

  /** What is filtered: an engaged gate that is not paused takes the emergency source during an
      emergency and the given one otherwise; without engagement it stays put; paused it has no speed. */
  lemma SelectedIs(c: Config, s: Gate, commands: Commands)
    ensures var emergency := c.useEmergencyHandling && s.systemEmergency;
            var source := if emergency then s.emergency.control else commands.control;
            var sel := Selected(c, s, commands);
            && (s.engaged && !s.paused ==> sel == source)
            && (!s.engaged && !s.paused ==> sel == Command(s.steer, 0.0, 0.0, c.stopHoldAcceleration))
            && (s.paused ==> sel.speed == 0.0 && sel.acceleration == c.stopHoldAcceleration &&
                             sel.steer == (if s.engaged then source.steer else s.steer) &&
                             sel.steerRate == if s.engaged then source.steerRate else 0.0)
  {
  }

  /** Commands are passed on unless a loss of the system heartbeat was seen, the stop is latched, or a
      heartbeat in use is missing. */
  lemma PublishesIff(t: Trig, c: Config, s: Gate, commands: Commands, now: real)
    requires c.Valid()
    ensures var o := Publish(t, c, s, commands, now);
            o.published != [] <==>
              !(c.useEmergencyHandling && (s.systemTimedOut || s.systemHeartbeat.None?)) && !s.latched &&
              !(c.checkExternalHeartbeat && s.externalHeartbeat.None?)
  {
    hide Filtered, Selected;
  }

  /** The published command is the selected one limited against the previous one by the parameters in
      use, marked as an emergency during one; afterwards it is the previous one, in manual mode with
      the actual steering. */
  lemma PublishedIs(t: Trig, c: Config, s: Gate, commands: Commands, now: real)
    requires c.Valid() && Publish(t, c, s, commands, now).published != []
    ensures var o := Publish(t, c, s, commands, now);
            var out := FilterAll(t, if s.inTransition then c.onTransition else c.nominal, s.previous,
                                 if s.lastTime.Some? then now - s.lastTime.value else 0.0, s.steer,
                                 Selected(c, s, commands));
            && o.published == [Control(out, c.useEmergencyHandling && s.systemEmergency)] && o.response == Success
            && o.next.lastControl == out && o.next.lastTime == Some(now)
            && o.next.previous.speed == out.speed && o.next.previous.acceleration == out.acceleration
            && o.next.previous.steer == (if s.autonomous then out.steer else s.steer)
            && o.next.previous.steerRate == if s.autonomous then out.steerRate else 0.0
  {
    hide FilterAll, Selected;
  }

  /** A command is stored, and published only from the source in use. */
  lemma CommandIsStored(t: Trig, c: Config, s: Gate, command: Command, now: real)
    requires c.Valid()
    ensures var o := Step(t, c, s, AutoControl(command, now));
            o.next.auto == Commands(command, s.auto.aux) && o.next.remote == s.remote &&
            o.next.emergency == s.emergency && (s.gateMode != AutoGate ==> o.published == [])
    ensures var o := Step(t, c, s, RemoteControl(command, now));
            o.next.remote == Commands(command, s.remote.aux) && o.next.auto == s.auto &&
            o.next.emergency == s.emergency && (s.gateMode != ExternalGate ==> o.published == [])
    ensures var o := Step(t, c, s, EmergencyControl(command, now));
            o.next.emergency == Commands(command, s.emergency.aux) && o.next.auto == s.auto &&
            o.next.remote == s.remote &&
            (!(c.useEmergencyHandling && s.systemEmergency) ==> o.published == [])
  {
    hide Step, Publish, Config.Valid;
    StoredAfter(t, c, s, AutoControl(command, now));
    StoredAfter(t, c, s, RemoteControl(command, now));
    StoredAfter(t, c, s, EmergencyControl(command, now));
  }

  lemma StoredAfter(t: Trig, c: Config, s: Gate, e: Event)
    requires c.Valid() && IsCommand(e)
    ensures var o, r := Step(t, c, s, e), Received(s, e);
            o.next.auto == r.auto && o.next.remote == r.remote && o.next.emergency == r.emergency &&
            (!Used(c, r, e) ==> o.published == [])
  {
    hide Step, Publish, Config.Valid, Received, Used, SourceOf;
    var r := Received(s, e);
    CommandStep(t, c, s, e);
    if Used(c, r, e) { PublishKeepsSources(t, c, r, SourceOf(r, e), EventTime(e).value); }
  }

  lemma PublishKeepsSources(t: Trig, c: Config, s: Gate, commands: Commands, now: real)
    requires c.Valid()
    ensures var n := Publish(t, c, s, commands, now).next;
            n.auto == s.auto && n.remote == s.remote && n.emergency == s.emergency
  {
    hide Filtered, Selected, DataReady;
  }

  /** A command from the source in use is what is filtered. */
  lemma CommandIsUsed(t: Trig, c: Config, s: Gate, command: Command, now: real)
    requires c.Valid()
    ensures s.gateMode == AutoGate ==>
      Step(t, c, s, AutoControl(command, now)) ==
      Publish(t, c, s.(auto := Commands(command, s.auto.aux)), Commands(command, s.auto.aux), now)
    ensures s.gateMode == ExternalGate ==>
      Step(t, c, s, RemoteControl(command, now)) ==
      Publish(t, c, s.(remote := Commands(command, s.remote.aux)), Commands(command, s.remote.aux), now)
    ensures c.useEmergencyHandling && s.systemEmergency ==>
      Step(t, c, s, EmergencyControl(command, now)) ==
      Publish(t, c, s.(emergency := Commands(command, s.emergency.aux)), Commands(command, s.emergency.aux), now)
  {
    hide Step, Publish, Config.Valid;
    CommandStep(t, c, s, AutoControl(command, now));
    CommandStep(t, c, s, RemoteControl(command, now));
    CommandStep(t, c, s, EmergencyControl(command, now));
  }

  function SourceInUse(c: Config, s: Gate, commands: Commands): Command {
    if c.useEmergencyHandling && s.systemEmergency then s.emergency.control else commands.control
  }

  /** An engaged gate that is not paused publishes a command that keeps the limits with its own speed
      and acceleration: the emergency one during an emergency, the given one otherwise. */
  lemma KeptCommandPasses(t: Trig, c: Config, s: Gate, commands: Commands, now: real)
    requires c.Valid() && c.Sane() && s.engaged && !s.paused && Publish(t, c, s, commands, now).published != []
    requires s.lastTime.Some? ==> s.lastTime.value <= now
    requires var source := SourceInUse(c, s, commands);
             && WithinLimits(ParamOf(c, s), source)
             && Abs(source.speed - s.previous.speed) <= SpeedReach(ParamOf(c, s), Dt(s, now))
             && Abs(source.acceleration - s.previous.acceleration) <= JerkReach(ParamOf(c, s), Dt(s, now))
    ensures var source := SourceInUse(c, s, commands);
            var o := Publish(t, c, s, commands, now);
            o.published[0].Control? &&
            o.published[0].command.speed == source.speed && o.published[0].command.acceleration == source.acceleration
  {
    hide FilterAll, Publish, Selected, WithinLimits, SpeedReach, JerkReach, Abs;
    PublishedIs(t, c, s, commands, now);
    SelectedIs(c, s, commands);
    FilterIsTransparent(t, ParamOf(c, s), s.previous, Dt(s, now), s.steer, Selected(c, s, commands));
  }
}
