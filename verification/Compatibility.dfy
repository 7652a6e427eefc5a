/** The layer that tells older nodes which operation mode to take, and reads it back from them.

    Messages are put in an outbox; reports and responses are calls. */
module Compatibility {
  import opened Wrappers

  datatype Mode = Stop | Autonomous | Local | Remote

  datatype Gate = Auto | External

  /** NoSelector is the code for not selecting. */
  datatype Selector = NoSelector | SelectLocal | SelectRemote

  datatype Command = SetEngage(engage: bool) | SetGate(gate: Gate) | CallSelector(selector: Selector)

  /** Latest reports, and whether a selector call is outstanding. */
  datatype Downstream = Downstream(
    engage: Option<bool>, gate: Option<Gate>, selector: Option<Selector>, calling: bool)
  {
    predicate Known() { engage.Some? && gate.Some? && selector.Some? }
  }

  function GetMode(d: Downstream): Option<Mode> {
    if !d.Known() then None
    else if !d.engage.value then Some(Stop)
    else if d.gate.value == Auto then Some(Autonomous)
    else if d.selector.value == SelectRemote then Some(Remote)
    else if d.selector.value == SelectLocal then Some(Local)
    else None
  }

  function EngageFor(m: Mode): bool { m != Stop }

  function GateFor(m: Mode): Gate { if m == Local || m == Remote then External else Auto }

  function SelectorFor(m: Mode): Selector {
    if m == Local then SelectLocal else if m == Remote then SelectRemote else NoSelector
  }

  /** Whether setting the mode calls the selector. */
  predicate CallsSelector(d: Downstream, m: Mode) {
    d.Known() && SelectorFor(m) != NoSelector && d.selector.value != SelectorFor(m) && !d.calling
  }

  /** The messages of one call: the selector at any time, then the gate, and engage only once the
      gate agrees. */
  function Commands(d: Downstream, m: Mode): seq<Command> {
    if !d.Known() then []
    else
      (if CallsSelector(d, m) then [CallSelector(SelectorFor(m))] else []) +
      (if d.gate.value != GateFor(m) then [SetGate(GateFor(m))]
       else if d.engage.value != EngageFor(m) then [SetEngage(EngageFor(m))]
       else [])
  }

  function AfterSet(d: Downstream, m: Mode): Downstream {
    if CallsSelector(d, m) then d.(calling := true) else d
  }

  class Compatibility {
    var isCallingService: bool
    var autowareEngage: Option<bool>
    var gateMode: Option<Gate>
    var selectorMode: Option<Selector>
    var outbox: seq<Command>

    function View(): Downstream
      reads this
    {
      Downstream(autowareEngage, gateMode, selectorMode, isCallingService)
    }

    constructor ()
      ensures View() == Downstream(None, None, None, false) && outbox == []
    {
      isCallingService, autowareEngage, gateMode, selectorMode, outbox := false, None, None, None, [];
    }

    method OnAutowareEngage(engage: bool)
      modifies `autowareEngage
      ensures View() == old(View()).(engage := Some(engage))
    {
      autowareEngage := Some(engage);
    }

    method OnGateMode(gate: Gate)
      modifies `gateMode
      ensures View() == old(View()).(gate := Some(gate))
    {
      gateMode := Some(gate);
    }

    method OnSelectorMode(selector: Selector)
      modifies `selectorMode
      ensures View() == old(View()).(selector := Some(selector))
    {
      selectorMode := Some(selector);
    }

    method OnSelectorResponse()
      modifies `isCallingService
      ensures View() == old(View()).(calling := false)
    {
      isCallingService := false;
    }

    method ReadMode() returns (mode: Option<Mode>)
      ensures mode == GetMode(View())
    {
      if !(autowareEngage.Some? && gateMode.Some? && selectorMode.Some?) { return None; }
      if autowareEngage.value == false { return Some(Stop); }
      if gateMode.value == Auto { return Some(Autonomous); }
      if selectorMode.value == SelectRemote { return Some(Remote); }
      if selectorMode.value == SelectLocal { return Some(Local); }
      mode := None;
    }

    method SetMode(mode: Mode)
      modifies `isCallingService, `outbox
      ensures View() == AfterSet(old(View()), mode)
      ensures outbox == old(outbox) + Commands(old(View()), mode)
    {
      if !(autowareEngage.Some? && gateMode.Some? && selectorMode.Some?) { return; }
      var engage, gate, selector;
      match mode {
        case Stop => engage, gate, selector := false, Auto, NoSelector;
        case Autonomous => engage, gate, selector := true, Auto, NoSelector;
        case Local => engage, gate, selector := true, External, SelectLocal;
        case Remote => engage, gate, selector := true, External, SelectRemote;
      }
      if selector != NoSelector && selectorMode.value != selector {
        if !isCallingService {
          isCallingService := true;
          outbox := outbox + [CallSelector(selector)];
        }
      }
      if gateMode.value != gate {
        outbox := outbox + [SetGate(gate)];
        return;
      }
      if autowareEngage.value != engage {
        outbox := outbox + [SetEngage(engage)];
        return;
      }
    }
  }

  // ----- the tables -----

  /** The mode read back. */
  lemma ModeTable(d: Downstream)
    ensures GetMode(d).None? <==>
            d.engage.None? || d.gate.None? || d.selector.None? ||
            (d.engage == Some(true) && d.gate == Some(External) && d.selector == Some(NoSelector))
    ensures GetMode(d) == Some(Stop) <==> d.engage == Some(false) && d.gate.Some? && d.selector.Some?
    ensures GetMode(d) == Some(Autonomous) <==> d.engage == Some(true) && d.gate == Some(Auto) && d.selector.Some?
    ensures GetMode(d) == Some(Local) <==>
            d.engage == Some(true) && d.gate == Some(External) && d.selector == Some(SelectLocal)
    ensures GetMode(d) == Some(Remote) <==>
            d.engage == Some(true) && d.gate == Some(External) && d.selector == Some(SelectRemote)
  {
  }

  /** The targets of a mode: only STOP is not engaged, local and remote control go through the external
      gate with their own selection, the others through the automatic one without any. */
  lemma TargetTable(m: Mode)
    ensures EngageFor(m) <==> m in {Autonomous, Local, Remote}
    ensures GateFor(m) == External <==> m in {Local, Remote}
    ensures SelectorFor(m) == SelectLocal <==> m == Local
    ensures SelectorFor(m) == SelectRemote <==> m == Remote
  {
  }

  /** What one call sends: nothing before all reports are known; the selector when it has a target it is
      not at and no call is outstanding; the gate when it is not at its target, and otherwise engage. */
  lemma SentBySet(d: Downstream, m: Mode)
    requires d.Known()
    ensures var cs := Commands(d, m);
            && (CallSelector(SelectorFor(m)) in cs <==>
                  m in {Local, Remote} && d.selector != Some(SelectorFor(m)) && !d.calling)
            && (SetGate(GateFor(m)) in cs <==> d.gate != Some(GateFor(m)))
            && (SetEngage(EngageFor(m)) in cs <==> d.gate == Some(GateFor(m)) && d.engage != Some(EngageFor(m)))
            && (forall c :: c in cs ==>
                  c in {CallSelector(SelectorFor(m)), SetGate(GateFor(m)), SetEngage(EngageFor(m))})
            && AfterSet(d, m).calling == (d.calling || CallSelector(SelectorFor(m)) in cs)
  {
  }

  lemma NothingSentUnknown(d: Downstream, m: Mode)
    requires !d.Known()
    ensures Commands(d, m) == [] && AfterSet(d, m) == d
  {
  }

  // ----- properties of one call -----

  /** Engage is never sent while the gate is in the wrong mode. */
  lemma EngageOnlyWithGate(d: Downstream, m: Mode, e: bool)
    requires SetEngage(e) in Commands(d, m)
    ensures d.gate == Some(GateFor(m)) && e == EngageFor(m) && d.engage == Some(!e)
  {
  }

  /** With all reports known and no call outstanding, nothing is left to send exactly when every
      node has its target, and then the mode read back is the mode set. */
  lemma QuietMeansReached(d: Downstream, m: Mode)
    requires d.Known() && !d.calling
    ensures Commands(d, m) == [] <==>
            d.engage.value == EngageFor(m) && d.gate.value == GateFor(m) &&
            (SelectorFor(m) != NoSelector ==> d.selector.value == SelectorFor(m))
    ensures Commands(d, m) == [] ==> GetMode(d) == Some(m)
  {
    assert CallsSelector(d, m) ==> CallSelector(SelectorFor(m)) in Commands(d, m);
  }

  /** Setting a mode never changes the mode read back. */
  lemma SetKeepsMode(d: Downstream, m: Mode)
    ensures GetMode(AfterSet(d, m)) == GetMode(d)
  {
  }

  // ----- echoing nodes -----

  /** A node that obeys reports its new state; a selector call is answered. */
  function Echo(d: Downstream, c: Command): Downstream {
    match c
    case SetEngage(e) => d.(engage := Some(e))
    case SetGate(g) => d.(gate := Some(g))
    case CallSelector(s) => d.(selector := Some(s), calling := false)
  }

  function EchoAll(d: Downstream, cs: seq<Command>): Downstream
    decreases |cs|
  {
    if cs == [] then d else EchoAll(Echo(d, cs[0]), cs[1..])
  }

  function Round(d: Downstream, m: Mode): Downstream {
    EchoAll(AfterSet(d, m), Commands(d, m))
  }

  lemma EchoOne(d: Downstream, c: Command)
    ensures EchoAll(d, [c]) == Echo(d, c)
  {
    assert [c][1..] == [];
  }

  lemma EchoTwo(d: Downstream, c: Command, e: Command)
    ensures EchoAll(d, [c] + [e]) == Echo(Echo(d, c), e)
  {
    assert ([c] + [e])[1..] == [e];
    EchoOne(Echo(d, c), e);
  }

  /** One round of messages and echoes moves selector and gate together, or else engage. */
  lemma RoundIs(d: Downstream, m: Mode)
    requires d.Known() && !d.calling
    ensures var r := Round(d, m);
            r.Known() && !r.calling && r.gate == Some(GateFor(m)) &&
            r.selector == (if SelectorFor(m) == NoSelector then d.selector else Some(SelectorFor(m))) &&
            r.engage == (if d.gate.value == GateFor(m) then Some(EngageFor(m)) else d.engage)
  {
    var s, g, e := CallSelector(SelectorFor(m)), SetGate(GateFor(m)), SetEngage(EngageFor(m));
    var start := AfterSet(d, m);
    EchoOne(start, s);
    EchoOne(start, g);
    EchoOne(start, e);
    EchoTwo(start, s, g);
    EchoTwo(start, s, e);
    assert [s] + [] == [s] && [] + [g] == [g] && [] + [e] == [e];
  }

  /** Two rounds reach any mode from any known state, and a third sends nothing. */
  lemma TwoRoundsReach(d: Downstream, m: Mode)
    requires d.Known() && !d.calling
    ensures GetMode(Round(Round(d, m), m)) == Some(m) && Commands(Round(Round(d, m), m), m) == []
  {
    hide Round, Commands;
    RoundIs(d, m);
    RoundIs(Round(d, m), m);
    QuietMeansReached(Round(Round(d, m), m), m);
  }

  /** One round is not always enough: from the external gate the vehicle is engaged one call later. */
  lemma OneRoundMayNotReach()
    ensures var d := Downstream(Some(false), Some(External), Some(NoSelector), false);
            GetMode(Round(d, Autonomous)) == Some(Stop)
  {
    RoundIs(Downstream(Some(false), Some(External), Some(NoSelector), false), Autonomous);
  }
}
