/** What becomes of an accepted request over the following events: it is undone when it times out, and
    obedient older nodes follow it within three ticks. */
module OperationModeRuns {
  import opened Wrappers
  import opened Compatibility
  import opened OperationMode

  // ----- timeout -----

  /** The event neither ends the transition nor starts another one in its place, which only an
      accepted request to stop under autonomous control does. */
  predicate KeepsTransition(s: Manager, e: Event) {
    var o := Step(s, e);
    o.next.transition.Some? &&
    !(e.ChangeOperationMode? && e.requested == Some(Stop) && s.control && o.response == Accepted)
  }

  predicate Undisturbed(start: Manager, events: seq<Event>) {
    forall i :: 0 <= i < |events| ==> KeepsTransition(Run(start, events[..i]).last, events[i])
  }

  /** The same start and the same mode to go back to. */
  predicate SameTransition(s: Manager, n: Manager) {
    && s.transition.Some? && n.transition.Some? && n.timeout == s.timeout
    && n.transition.value.time == s.transition.value.time
    && n.transition.value.previous == s.transition.value.previous
  }

  lemma TickKeepsTransition(s: Manager, now: real, availability: map<Mode, bool>, completed: bool)
    requires s.transition.Some? && Tick(s, now, availability, completed).next.transition.Some?
    ensures SameTransition(s, Tick(s, now, availability, completed).next)
  {
    hide GetMode, AfterSet, Commands;
  }

  lemma StepKeepsTransition(s: Manager, e: Event)
    requires s.transition.Some? && KeepsTransition(s, e)
    ensures SameTransition(s, Step(s, e).next)
  {
    hide Tick;
    if e.Timer? { TickKeepsTransition(s, e.now, e.availability, e.completed); }
  }

  lemma {:induction false} RunKeepsTransition(start: Manager, events: seq<Event>)
    requires start.transition.Some? && Undisturbed(start, events)
    ensures SameTransition(start, Run(start, events).last)
  {
    hide Step, KeepsTransition;
    if events != [] {
      var n := |events| - 1;
      assert forall i :: 0 <= i < n ==> events[..n][..i] == events[..i];
      RunKeepsTransition(start, events[..n]);
      StepKeepsTransition(Run(start, events[..n]).last, events[n]);
    }
  }

  /** A change of mode under autonomous control that is neither completed nor replaced until it times
      out is undone, whatever happened in between: the previous mode is back and told to the older
      nodes. */
  lemma TimeoutRestores(s: Manager, mode: Mode, start: real, events: seq<Event>,
                        now: real, availability: map<Mode, bool>, completed: bool)
    requires ChangeMode(s, Some(mode), start).response == Accepted && s.control
    requires Undisturbed(ChangeMode(s, Some(mode), start).next, events) && now - start > s.timeout
    ensures var last := Run(ChangeMode(s, Some(mode), start).next, events).last;
            var n := Tick(last, now, availability, completed).next;
            n.mode == s.mode && n.window == Some(now) && n.transition.None? && n.control == last.control
  {
    hide Run, Undisturbed, GetMode, AfterSet, Commands;
    RunKeepsTransition(ChangeMode(s, Some(mode), start).next, events);
  }

  // ----- obedient older nodes -----

  lemma {:induction false} RunConcat(start: Manager, a: seq<Event>, b: seq<Event>)
    ensures Run(start, a + b).last == Run(Run(start, a).last, b).last
  {
    hide Step;
    if b == [] {
      assert a + b == a;
    } else {
      var n := |b| - 1;
      assert (a + b)[..|a| + n] == a + b[..n];
      RunConcat(start, a, b[..n]);
    }
  }

  /** What the older nodes report when they obey a message. */
  function EchoEvents(c: Command): seq<Event> {
    match c
    case SetEngage(e) => [EngageReport(e)]
    case SetGate(g) => [GateModeReport(g)]
    case CallSelector(x) => [SelectorReport(x), SelectorResponse]
  }

  function EchoesOf(cs: seq<Command>): seq<Event>
    decreases |cs|
  {
    if cs == [] then [] else EchoEvents(cs[0]) + EchoesOf(cs[1..])
  }

  lemma OneEvent(s: Manager, e: Event)
    ensures Run(s, [e]).last == Step(s, e).next
  {
    hide Step;
    assert [e][..0] == [] && Run(s, []).last == s;
  }

  lemma EchoRun(s: Manager, c: Command)
    ensures Run(s, EchoEvents(c)).last == s.(downstream := Echo(s.downstream, c))
  {
    hide Run, Tick, ChangeMode;
    match c
    case SetEngage(e) => OneEvent(s, EngageReport(e));
    case SetGate(g) => OneEvent(s, GateModeReport(g));
    case CallSelector(x) =>
      RunConcat(s, [SelectorReport(x)], [SelectorResponse]);
      OneEvent(s, SelectorReport(x));
      OneEvent(Step(s, SelectorReport(x)).next, SelectorResponse);
      assert [SelectorReport(x)] + [SelectorResponse] == EchoEvents(c);
  }

  lemma {:induction false} EchoesRun(s: Manager, cs: seq<Command>)
    ensures Run(s, EchoesOf(cs)).last == s.(downstream := EchoAll(s.downstream, cs))
    decreases |cs|
  {
    hide Step, EchoEvents, Echo;
    if cs != [] {
      EchoRun(s, cs[0]);
      RunConcat(s, EchoEvents(cs[0]), EchoesOf(cs[1..]));
      EchoesRun(s.(downstream := Echo(s.downstream, cs[0])), cs[1..]);
    }
  }

  datatype TickInput = TickInput(now: real, availability: map<Mode, bool>, completed: bool)

  /** A tick, and the reports of the older nodes before the next one. */
  function TickAndEchoes(s: Manager, t: TickInput): seq<Event> {
    [Timer(t.now, t.availability, t.completed)] + EchoesOf(Tick(s, t.now, t.availability, t.completed).sent)
  }

  function AfterEchoedTick(s: Manager, t: TickInput): Manager {
    Run(s, TickAndEchoes(s, t)).last
  }

  function AfterEchoedTicks(s: Manager, ticks: seq<TickInput>): Manager {
    if ticks == [] then s else AfterEchoedTick(AfterEchoedTicks(s, ticks[..|ticks| - 1]), ticks[|ticks| - 1])
  }

  lemma EchoedTickIs(s: Manager, t: TickInput)
    ensures var o := Tick(s, t.now, t.availability, t.completed);
            AfterEchoedTick(s, t) == o.next.(downstream := EchoAll(o.next.downstream, o.sent))
  {
    hide Run, Tick, EchoesOf, EchoAll;
    var e := Timer(t.now, t.availability, t.completed);
    var o := Tick(s, t.now, t.availability, t.completed);
    RunConcat(s, [e], EchoesOf(o.sent));
    OneEvent(s, e);
    TimerStep(s, t);
    EchoesRun(o.next, o.sent);
  }

  lemma TimerStep(s: Manager, t: TickInput)
    ensures Step(s, Timer(t.now, t.availability, t.completed)) == Tick(s, t.now, t.availability, t.completed)
  {
    hide Tick;
  }

  /** Until the deadline the mode is told to nodes whose reports are known, or they already follow, and
      no transition is cancelled. */
  predicate Telling(s: Manager, m: Mode, deadline: real) {
    && s.mode == m && s.downstream.Known() && !s.downstream.calling
    && (s.window.Some? ==> deadline - s.window.value <= COMPATIBILITY_TIMEOUT)
    && (s.window.None? ==> GetMode(s.downstream) == Some(m))
    && (s.transition.Some? ==> !Cancels(s.transition.value, s.timeout, s.control, deadline))
  }

  /** A tick before the deadline. */
  lemma ToldTick(s: Manager, m: Mode, t: TickInput, deadline: real)
    requires Telling(s, m, deadline) && t.now <= deadline
    ensures var o := Tick(s, t.now, t.availability, t.completed);
            && o.next.mode == m && o.next.control == s.control && o.next.timeout == s.timeout
            && (o.next.transition.Some? ==> !Cancels(o.next.transition.value, s.timeout, s.control, deadline))
            && o.next.downstream == (if s.window.Some? then AfterSet(s.downstream, m) else s.downstream)
            && o.sent == (if s.window.Some? then Commands(s.downstream, m) else [])
            && o.next.window == if GetMode(s.downstream) == Some(m) then None else s.window
  {
    hide GetMode, AfterSet, Commands, Processed, Synchronised, Cancels;
    var m0 := s.(available := t.availability);
    ToldSync(m0, m, t.now, deadline);
    var n := Synchronised(m0, t.now);
    if n.transition.Some? { ToldTransition(n, n.transition.value, t, deadline); }
  }

  /** The window and the older nodes. */
  lemma ToldSync(s: Manager, m: Mode, now: real, deadline: real)
    requires Telling(s, m, deadline) && now <= deadline
    ensures var n := Synchronised(s, now);
            && n.mode == m && n.control == s.control && n.timeout == s.timeout && n.transition == s.transition
            && n.downstream == (if s.window.Some? then AfterSet(s.downstream, m) else s.downstream)
            && n.window == if GetMode(s.downstream) == Some(m) then None else s.window
    ensures WindowOpen(s, now) <==> s.window.Some?
  {
    hide GetMode, AfterSet, Cancels;
  }

  /** A transition that would not be cancelled by the deadline goes on or ends completed. */
  lemma ToldTransition(s: Manager, tr: Transition, t: TickInput, deadline: real)
    requires s.transition == Some(tr) && !Cancels(tr, s.timeout, s.control, deadline) && t.now <= deadline
    ensures var n := Processed(s, tr, t.now, t.completed).next;
            && n.mode == s.mode && n.window == s.window && n.downstream == s.downstream
            && n.control == s.control && n.timeout == s.timeout
            && (n.transition.Some? ==> !Cancels(n.transition.value, s.timeout, s.control, deadline))
  {
    hide GetMode;
  }

  lemma ReachedStays(d: Downstream, m: Mode)
    requires d.Known() && !d.calling && GetMode(d) == Some(m)
    ensures GetMode(Round(d, m)) == Some(m)
  {
    hide Round;
    RoundIs(d, m);
  }

  lemma ToldEchoedTick(s: Manager, m: Mode, t: TickInput, deadline: real)
    requires Telling(s, m, deadline) && t.now <= deadline
    ensures var n := AfterEchoedTick(s, t);
            && Telling(n, m, deadline)
            && n.downstream == (if s.window.Some? then Round(s.downstream, m) else s.downstream)
            && n.window == if GetMode(s.downstream) == Some(m) then None else s.window
  {
    hide Tick, AfterEchoedTick, Commands, GetMode, AfterSet, Cancels;
    EchoedTickIs(s, t);
    ToldTick(s, m, t, deadline);
    RoundIs(s.downstream, m);
    if GetMode(s.downstream) == Some(m) { ReachedStays(s.downstream, m); }
  }

  /** In time all ticks keep telling, and the third one closes the window. */
  lemma {:induction false} ToldTicks(s: Manager, m: Mode, ticks: seq<TickInput>, deadline: real)
    requires Telling(s, m, deadline) && forall i :: 0 <= i < |ticks| ==> ticks[i].now <= deadline
    ensures var n := AfterEchoedTicks(s, ticks);
            && Telling(n, m, deadline)
            && (|ticks| == 0 ==> n == s)
            && (|ticks| == 1 ==> n.window.None? || n.downstream == Round(s.downstream, m))
            && (|ticks| == 2 ==> n.window.None? || n.downstream == Round(Round(s.downstream, m), m))
            && (|ticks| >= 3 ==> n.window.None?)
  {
    hide AfterEchoedTick, Round, Commands, GetMode;
    if ticks != [] {
      var k := |ticks| - 1;
      ToldTicks(s, m, ticks[..k], deadline);
      ToldEchoedTick(AfterEchoedTicks(s, ticks[..k]), m, ticks[k], deadline);
      TwoRoundsReach(s.downstream, m);
    }
  }

  /** An accepted request reaches the older nodes: after three or more ticks in time, each answered
      before the next, the window is closed and both sides are in the requested mode. */
  lemma AcceptedRequestReaches(s: Manager, request: Option<Mode>, start: real, ticks: seq<TickInput>, deadline: real)
    requires ChangeMode(s, request, start).response == Accepted
    requires s.downstream.Known() && !s.downstream.calling && deadline - start <= COMPATIBILITY_TIMEOUT
    requires |ticks| >= 3 && forall i :: 0 <= i < |ticks| ==> ticks[i].now <= deadline
    requires var t := ChangeMode(s, request, start).next.transition;
             t.Some? ==> !Cancels(t.value, s.timeout, s.control, deadline)
    ensures var target := if request.Some? then request.value else s.mode;
            var n := AfterEchoedTicks(ChangeMode(s, request, start).next, ticks);
            n.mode == target && n.window.None? && GetMode(n.downstream) == Some(target)
  {
    hide GetMode, AfterEchoedTicks, Cancels;
    var target := if request.Some? then request.value else s.mode;
    ToldTicks(ChangeMode(s, request, start).next, target, ticks, deadline);
  }

  /** The transition such a request starts is not cancelled before its timeout; one that is already
      going on, when stopping under manual control, may be. */
  lemma NewTransitionLasts(s: Manager, request: Option<Mode>, start: real, deadline: real)
    requires ChangeMode(s, request, start).response == Accepted && deadline - start <= s.timeout
    requires s.control || request.None? || s.transition.None?
    ensures var t := ChangeMode(s, request, start).next.transition;
            t.Some? ==> !Cancels(t.value, s.timeout, s.control, deadline)
  {
  }
}
