/** The rules of the operation mode manager, one by one: what a tick does to the transition, the mode and
    the window, and what a request starts. */
module OperationModeRules {
  import opened Wrappers
  import opened Compatibility
  import opened OperationMode
  import opened OperationModeRuns

  /** While the older nodes are being told, for at most one second, the mode is the one told; otherwise
      it is theirs, if they report any. */
  function ModeInUse(s: Manager, now: real): Mode {
    if Told(s, now) || GetMode(s.downstream).None? then s.mode else GetMode(s.downstream).value
  }

  predicate Told(s: Manager, now: real) { s.window.Some? && now - s.window.value <= 1.0 }

  /** The transition times out, its engagement was rejected, or it is overridden after engaging. */
  predicate Broken(s: Manager, now: real) {
    s.transition.Some? &&
    var t := s.transition.value;
    now - t.time > s.timeout || t.engageFailed || (t.engageCompleted && !s.control)
  }

  predicate Agreed(s: Manager, now: real) { GetMode(s.downstream) == Some(ModeInUse(s, now)) }

  // ----- a tick -----

  /** A transition ends exactly when it is broken, or when a change under autonomous control is reported
      complete after the older nodes have followed. */
  lemma TransitionEndsIff(s: Manager, t: TickInput)
    requires s.transition.Some?
    ensures Tick(s, t.now, t.availability, t.completed).next.transition.None? <==>
            Broken(s, t.now) || (s.control && t.completed && Agreed(s, t.now))
  {
    hide GetMode, AfterSet, Commands, Synchronised;
    var m := s.(available := t.availability);
    SetKeepsMode(s.downstream, s.mode);
    SyncEffect(m, t.now);
  }

  /** A broken transition goes back to its previous mode, told from now on, or else asks for manual
      control; any other tick keeps the mode in use, and tells it until the older nodes follow. */
  lemma TickEffect(s: Manager, t: TickInput)
    ensures var o := Tick(s, t.now, t.availability, t.completed);
            var back := if Broken(s, t.now) then s.transition.value.previous else None;
            && o.next.mode == (if back.Some? then back.value else ModeInUse(s, t.now))
            && o.next.window == (if back.Some? then Some(t.now)
                                 else if Told(s, t.now) && !Agreed(s, t.now) && !Broken(s, t.now) then s.window
                                 else None)
            && o.next.available == t.availability && o.next.timeout == s.timeout
            && o.next.control == s.control && o.next.gateInTransition == s.gateInTransition
            && o.sent == (if Told(s, t.now) then Commands(s.downstream, s.mode) else [])
            && o.next.downstream == if Told(s, t.now) then AfterSet(s.downstream, s.mode) else s.downstream
  {
    hide GetMode, AfterSet, Commands, Processed, Synchronised, WindowOpen;
    var m := s.(available := t.availability);
    var n := Synchronised(m, t.now);
    SyncEffect(m, t.now);
    assert WindowOpen(s, t.now) == WindowOpen(m, t.now) == Told(s, t.now) by { ToldIsOpen(s, m, t.now); }
    if n.transition.Some? { ProcessedEffect(n, n.transition.value, t); }
  }

  lemma ToldIsOpen(s: Manager, m: Manager, now: real)
    requires m.window == s.window
    ensures WindowOpen(s, now) == WindowOpen(m, now) == Told(s, now)
  {
  }

  lemma SyncEffect(s: Manager, now: real)
    ensures var n := Synchronised(s, now);
            n == s.(mode := ModeInUse(s, now), window := if Told(s, now) && !Agreed(s, now) then s.window else None,
                    downstream := if Told(s, now) then AfterSet(s.downstream, s.mode) else s.downstream)
  {
    hide GetMode, AfterSet;
  }

  lemma ProcessedEffect(s: Manager, a: Transition, t: TickInput)
    requires s.transition == Some(a)
    ensures var o := Processed(s, a, t.now, t.completed);
            var back := if Broken(s, t.now) then a.previous else None;
            && o.next.mode == (if back.Some? then back.value else s.mode)
            && o.next.window == (if back.Some? then Some(t.now) else if Broken(s, t.now) then None else s.window)
            && o.next.available == s.available && o.next.timeout == s.timeout && o.next.control == s.control
            && o.next.gateInTransition == s.gateInTransition && o.next.downstream == s.downstream
  {
    hide GetMode;
  }

  /** Manual control is requested exactly for a broken transition without a previous mode, autonomous
      control exactly for a pending engagement once the older nodes have followed and the gate is in
      transition. */
  lemma RequestedIff(s: Manager, t: TickInput)
    ensures var o := Tick(s, t.now, t.availability, t.completed);
            o.requests ==
              if Broken(s, t.now) && s.transition.value.previous.None? then [RequestManual]
              else if s.transition.Some? && !Broken(s, t.now) && s.transition.value.engageRequested &&
                      !s.control && s.gateInTransition && Agreed(s, t.now) then [RequestAutonomous]
              else []
  {
    hide GetMode, AfterSet, Commands;
    SetKeepsMode(s.downstream, s.mode);
  }

  /** What remains of a transition: engaging stays pending until it is requested, and it is marked
      completed under autonomous control. */
  lemma TransitionAfterTick(s: Manager, t: TickInput)
    requires s.transition.Some?
    ensures var o := Tick(s, t.now, t.availability, t.completed);
            var a := s.transition.value;
            o.next.transition.Some? ==>
              o.next.transition.value ==
                Transition(a.time, a.previous, a.engageRequested && o.requests == [], false,
                           a.engageCompleted || s.control)
  {
    hide GetMode, AfterSet, Commands;
  }

  lemma NoTransitionAppears(s: Manager, t: TickInput)
    requires s.transition.None?
    ensures Tick(s, t.now, t.availability, t.completed).next.transition.None?
  {
    hide GetMode, AfterSet, Commands;
  }

  /** A change that is complete stays: no later tick with the older nodes in that mode undoes it. */
  lemma CompletedStays(s: Manager, t: TickInput, u: TickInput)
    requires s.transition.Some? && !Broken(s, t.now) && s.control && t.completed && Agreed(s, t.now)
    ensures var n := Tick(s, t.now, t.availability, t.completed).next;
            var m := Tick(n, u.now, u.availability, u.completed).next;
            n.transition.None? && m.transition.None? && m.mode == n.mode == ModeInUse(s, t.now)
  {
    hide GetMode, AfterSet, Commands, Tick;
    TransitionEndsIff(s, t);
    TickEffect(s, t);
    var n := Tick(s, t.now, t.availability, t.completed).next;
    SetKeepsMode(s.downstream, s.mode);
    NoTransitionAppears(n, u);
    TickEffect(n, u);
  }

  // ----- a request -----

  /** The answers, tried in this order. */
  lemma ResponseIs(s: Manager, request: Option<Mode>, now: real)
    ensures var target := if request.Some? then request.value else s.mode;
            ChangeMode(s, request, now).response ==
              if request == Some(s.mode) || (request.None? && s.control) then NoEffect
              else if s.transition.Some? && request != Some(Stop) then InTransition
              else if (s.control || request.None?) && !(target in s.available && s.available[target]) then NotAvailable
              else Accepted
  {
  }

  /** An accepted request takes its mode and tells it from now on. Asking for control starts an
      engagement; asking for a mode under autonomous control starts a transition that can go back. */
  lemma AcceptedChange(s: Manager, request: Option<Mode>, now: real)
    requires ChangeMode(s, request, now).response == Accepted
    ensures var o := ChangeMode(s, request, now);
            && o.next.mode == (if request.Some? then request.value else s.mode)
            && o.next.window == Some(now) && o.requests == [] && o.sent == []
            && (request.None? ==> o.next.transition == Some(Transition(now, None, true, false, false)))
            && (request.Some? && s.control ==>
                  o.next.transition == Some(Transition(now, Some(s.mode), false, false, false)))
            && (request.Some? && !s.control ==> o.next.transition == s.transition)
            && o.next.control == s.control && o.next.downstream == s.downstream && o.next.timeout == s.timeout
            && o.next.available == s.available && o.next.gateInTransition == s.gateInTransition
  {
  }

  /** Giving up control ends the transition, stops telling the older nodes and asks for manual control. */
  lemma DisablingAsksManual(s: Manager, now: real)
    ensures var o := Step(s, ChangeAutowareControl(false, now));
            o.requests == [RequestManual] && o.response == Accepted && o.sent == [] &&
            o.next == s.(transition := None, window := None)
  {
  }

  /** Asking for control leads to the request for it at the first tick that finds the older nodes in the
      mode and the gate in transition, before the timeout. */
  lemma EngagementIsRequested(s: Manager, start: real, t: TickInput)
    requires Step(s, ChangeAutowareControl(true, start)).response == Accepted
    requires s.gateInTransition && t.now - start <= s.timeout
    requires GetMode(s.downstream) == Some(s.mode)
    ensures var n := Step(s, ChangeAutowareControl(true, start)).next;
            Tick(n, t.now, t.availability, t.completed).requests == [RequestAutonomous]
  {
    hide GetMode, AfterSet, Commands, Tick;
    AcceptedChange(s, None, start);
    AskedForControl(s, start);
    RequestedIff(Step(s, ChangeAutowareControl(true, start)).next, t);
  }

  lemma AskedForControl(s: Manager, start: real)
    ensures Step(s, ChangeAutowareControl(true, start)) == ChangeMode(s, None, start)
    ensures ChangeMode(s, None, start).response == Accepted ==> !s.control
  {
  }

  /** A rejected engagement is undone by the next tick, which asks for manual control. */
  lemma RejectionAsksManual(s: Manager, t: TickInput)
    requires s.transition.Some? && s.transition.value.previous.None?
    ensures var n := Step(s, ControlResponse(false)).next;
            var o := Tick(n, t.now, t.availability, t.completed);
            o.requests == [RequestManual] && o.next.transition.None? && o.next.window.None?
  {
    hide GetMode, AfterSet, Commands, Tick;
    var n := Step(s, ControlResponse(false)).next;
    RequestedIff(n, t);
    TransitionEndsIff(n, t);
    TickEffect(n, t);
  }

  /** Reports and answers change what they are about and nothing else. */
  lemma ReportsAreStored(s: Manager, b: bool, gate: Gate, selector: Selector)
    ensures Step(s, ControlReport(b)).next == s.(control := b)
    ensures Step(s, GateReport(b)).next == s.(gateInTransition := b)
    ensures Step(s, EngageReport(b)).next == s.(downstream := s.downstream.(engage := Some(b)))
    ensures Step(s, GateModeReport(gate)).next == s.(downstream := s.downstream.(gate := Some(gate)))
    ensures Step(s, SelectorReport(selector)).next == s.(downstream := s.downstream.(selector := Some(selector)))
    ensures Step(s, SelectorResponse).next == s.(downstream := s.downstream.(calling := false))
    ensures Step(s, ControlResponse(true)).next == s
  {
    hide Tick, ChangeMode;
  }
}
