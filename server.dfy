/**
 * The adaptive signal controller: per-light GREEN/YELLOW state machine with
 * a minimum green time, a yellow clearance and max-pressure phase choice,
 * the operator command handling (auto/manual mode, forced phase), and the
 * step loop that drives them and queues one snapshot per step.
 */
module SimulationServer {
  import opened Signals
  import opened Traci
  import opened PhaseDiscovery

  const MIN_GREEN_TIME: nat := 10
  const YELLOW_PHASE_DURATION: nat := 4

  datatype SignalState = Green | Yellow

  /** The controller's bookkeeping for one light. */
  datatype LightControl = LightControl(
    phaseToLanes: seq<PhaseLanes>,  // green phases and their lanes, in table order
    yellowPhaseMap: map<nat, nat>,  // green phase -> its yellow clearance phase
    timer: nat,                     // steps since the last transition
    state: SignalState,
    targetPhase: Option<nat>)       // the green phase a running yellow leads to

  /** An operator command as taken from the command queue. */
  datatype Command =
    | SetMode(mode: string)
    | ForcePhase(phase: Option<int>)  // None: the message carried no value
    | Unrecognised                    // any other command name
    | Malformed                       // a queue item that is not a JSON object

  /** The command side of the controller: the pending commands, the mode,
      the forced phase and whether it still has to be applied. */
  datatype CommandState = CommandState(queue: seq<Command>, mode: string, target: Option<int>, changed: bool)

  /** What the step loop puts on the data queue: a snapshot per step, then
      the end-of-simulation marker. */
  datatype QueueItem = Snapshot(step: nat, controlMode: string) | EndOfSimulation

  /** The state machine's decision for one call: the new bookkeeping and the
      phase it sets, if any. */
  datatype Decision = Decision(control: LightControl, call: Option<nat>)

  /** The running maximum over the phase table: the phase chosen and its pressure. */
  datatype Choice = Choice(best: nat, maxPressure: int)

  // ---------------------------------------------------------------------
  // Pressure and phase choice

  /** The pressure of a phase: the summed waiting time of its lanes. */
  function Pressure(lanes: seq<Lane>, waiting: map<Lane, nat>): nat
  {
    if lanes == [] then 0
    else Pressure(lanes[..|lanes| - 1], waiting) + WaitingIn(waiting, lanes[|lanes| - 1])
  }

  /** A phase has no pressure exactly when none of its lanes has waited. */
  lemma {:induction false} PressureZero(lanes: seq<Lane>, waiting: map<Lane, nat>)
    ensures Pressure(lanes, waiting) == 0 <==>
              forall i :: 0 <= i < |lanes| ==> WaitingIn(waiting, lanes[i]) == 0
  {
    if lanes != [] {
      var init := lanes[..|lanes| - 1];
      PressureZero(init, waiting);
      assert forall i :: 0 <= i < |init| ==> init[i] == lanes[i];
    }
  }

  /** The running maximum of the table scan: start from the current phase
      with pressure -1 and take an entry only when its pressure is strictly
      larger than the best so far. */
  function Select(entries: seq<PhaseLanes>, waiting: map<Lane, nat>, current: nat): Choice
  {
    if entries == [] then Choice(current, -1)
    else
      var c := Select(entries[..|entries| - 1], waiting, current);
      var e := entries[|entries| - 1];
      var p := Pressure(e.lanes, waiting);
      if p > c.maxPressure then Choice(e.phase, p) else c
  }

  /** The choice is the FIRST entry of maximal pressure; the current phase
      only when the table is empty. */
  lemma {:induction false} SelectIsFirstMaximum(entries: seq<PhaseLanes>, waiting: map<Lane, nat>, current: nat)
    ensures entries == [] ==> Select(entries, waiting, current) == Choice(current, -1)
    ensures entries != [] ==>
              exists i :: 0 <= i < |entries| && FirstMaximumAt(entries, waiting, i) &&
                          Select(entries, waiting, current) == Choice(entries[i].phase, Pressure(entries[i].lanes, waiting))
  {
    if entries != [] {
      var init := entries[..|entries| - 1];
      var e := entries[|entries| - 1];
      SelectIsFirstMaximum(init, waiting, current);
      assert forall j :: 0 <= j < |init| ==> init[j] == entries[j];
      if init == [] {
        assert FirstMaximumAt(entries, waiting, 0);
      } else {
        var i :| 0 <= i < |init| && FirstMaximumAt(init, waiting, i) &&
                 Select(init, waiting, current) == Choice(init[i].phase, Pressure(init[i].lanes, waiting));
        if Pressure(e.lanes, waiting) > Pressure(init[i].lanes, waiting) {
          assert FirstMaximumAt(entries, waiting, |init|);
        } else {
          assert FirstMaximumAt(entries, waiting, i);
        }
      }
    }
  }

  /** Entry `i` has the largest pressure of the table, and every earlier
      entry has strictly less. */
  ghost predicate FirstMaximumAt(entries: seq<PhaseLanes>, waiting: map<Lane, nat>, i: nat)
    requires i < |entries|
  {
    && (forall j :: 0 <= j < |entries| ==> Pressure(entries[j].lanes, waiting) <= Pressure(entries[i].lanes, waiting))
    && (forall j :: 0 <= j < i ==> Pressure(entries[j].lanes, waiting) < Pressure(entries[i].lanes, waiting))
  }

  /** The running-maximum loop over the phase table. */
  method SelectBestPhase(entries: seq<PhaseLanes>, waiting: map<Lane, nat>, current: nat)
    returns (best: nat, maxPressure: int)
    ensures Choice(best, maxPressure) == Select(entries, waiting, current)
  {
    maxPressure := -1;
    best := current;
    var i := 0;
    while i < |entries|
      invariant 0 <= i <= |entries|
      invariant Choice(best, maxPressure) == Select(entries[..i], waiting, current)
    {
      assert entries[..i + 1][..i] == entries[..i];
      var pressure := Pressure(entries[i].lanes, waiting);
      if pressure > maxPressure {
        maxPressure := pressure;
        best := entries[i].phase;
      }
      i := i + 1;
    }
    assert entries[..i] == entries;
  }

  // ---------------------------------------------------------------------
  // The per-light state machine, as a function of its inputs

  /** The bookkeeping of a light with `n` phases only names phases that
      exist, and a yellow clearance has a target and is still running. */
  ghost predicate WellFormed(c: LightControl, n: nat)
  {
    && PhasesBelow(c.phaseToLanes, n)
    && (forall g :: g in c.yellowPhaseMap ==> c.yellowPhaseMap[g] < n)
    && (c.state == Yellow ==>
          c.targetPhase.Some? && c.targetPhase.value < n && c.timer < YELLOW_PHASE_DURATION)
  }

  /** One call of the state machine for a light currently showing phase
      `current`, given the lanes' waiting times. */
  function ControlStep(c: LightControl, current: nat, waiting: map<Lane, nat>): (r: Decision)
    requires c.state == Yellow ==> c.targetPhase.Some?
    ensures r.control.phaseToLanes == c.phaseToLanes && r.control.yellowPhaseMap == c.yellowPhaseMap
    ensures r.call.None? ==> r.control == c.(timer := c.timer + 1)
    ensures r.call.Some? ==> r.control.timer == 0
    ensures r.control.state == Yellow ==> r.control.targetPhase.Some?
  {
    var timer := c.timer + 1;
    if c.state == Yellow then
      if timer >= YELLOW_PHASE_DURATION then
        Decision(c.(state := Green, timer := 0), Some(c.targetPhase.value))
      else
        Decision(c.(timer := timer), None)
    else if timer < MIN_GREEN_TIME then
      Decision(c.(timer := timer), None)
    else
      var choice := Select(c.phaseToLanes, waiting, current);
      if choice.best != current && choice.maxPressure > 0 then
        if current in c.yellowPhaseMap then
          Decision(c.(state := Yellow, targetPhase := Some(choice.best), timer := 0),
                   Some(c.yellowPhaseMap[current]))
        else
          Decision(c.(timer := 0), Some(choice.best))
      else
        Decision(c.(timer := timer), None)
  }

  /** Every entry of the table names one of the first `n` phases. */
  ghost predicate PhasesBelow(entries: seq<PhaseLanes>, n: nat)
  {
    entries == [] || (PhasesBelow(entries[..|entries| - 1], n) && entries[|entries| - 1].phase < n)
  }

  lemma {:induction false} PhasesBelowMeans(entries: seq<PhaseLanes>, n: nat)
    ensures PhasesBelow(entries, n) <==> forall i :: 0 <= i < |entries| ==> entries[i].phase < n
  {
    if entries != [] {
      var init := entries[..|entries| - 1];
      PhasesBelowMeans(init, n);
      assert forall i :: 0 <= i < |init| ==> init[i] == entries[i];
    }
  }

  /** The choice over a table of phases below `n`, starting from a phase
      below `n`, is a phase below `n`. */
  lemma {:induction false} SelectInRange(entries: seq<PhaseLanes>, n: nat, current: nat, waiting: map<Lane, nat>)
    requires PhasesBelow(entries, n) && current < n
    ensures Select(entries, waiting, current).best < n
  {
    if entries != [] {
      SelectInRange(entries[..|entries| - 1], n, current, waiting);
    }
  }

  /** A call keeps the bookkeeping well-formed, and every phase it sets is
      a phase of the light, so the simulator never rejects it. */
  lemma ControlStepKeepsWellFormed(c: LightControl, n: nat, current: nat, waiting: map<Lane, nat>)
    requires WellFormed(c, n) && current < n
    ensures WellFormed(ControlStep(c, current, waiting).control, n)
    ensures ControlStep(c, current, waiting).call.Some? ==> ControlStep(c, current, waiting).call.value < n
  {
    SelectInRange(c.phaseToLanes, n, current, waiting);
  }

  /** In YELLOW a call sets the target phase exactly when the clearance
      has run its course, and then returns to GREEN with a fresh timer. */
  lemma YellowDecision(c: LightControl, current: nat, waiting: map<Lane, nat>)
    requires c.state == Yellow && c.targetPhase.Some?
    ensures var d := ControlStep(c, current, waiting);
            && (d.call.Some? <==> c.timer + 1 >= YELLOW_PHASE_DURATION)
            && (d.call.Some? ==> d.call == c.targetPhase && d.control.state == Green)
            && (d.call.None? ==> d.control.state == Yellow)
  {
  }

  /** In GREEN, once the minimum green time is reached, a call switches
      exactly when the first entry of maximal pressure is another phase
      and has pressure; it goes through the yellow clearance of the
      current phase when there is one, and otherwise straight to that
      entry's phase. */
  lemma {:induction false} GreenDecision(c: LightControl, current: nat, waiting: map<Lane, nat>)
    requires c.state == Green && c.timer + 1 >= MIN_GREEN_TIME && c.phaseToLanes != []
    ensures exists i :: 0 <= i < |c.phaseToLanes| && FirstMaximumAt(c.phaseToLanes, waiting, i) &&
              var e := c.phaseToLanes[i];
              var d := ControlStep(c, current, waiting);
              && (d.call.Some? <==> e.phase != current && Pressure(e.lanes, waiting) > 0)
              && (d.call.Some? && current in c.yellowPhaseMap ==>
                    d.call.value == c.yellowPhaseMap[current] && d.control.state == Yellow &&
                    d.control.targetPhase == Some(e.phase))
              && (d.call.Some? && current !in c.yellowPhaseMap ==>
                    d.call.value == e.phase && d.control.state == Green)
  {
    SelectIsFirstMaximum(c.phaseToLanes, waiting, current);
    var i :| 0 <= i < |c.phaseToLanes| && FirstMaximumAt(c.phaseToLanes, waiting, i) &&
             Select(c.phaseToLanes, waiting, current) ==
               Choice(c.phaseToLanes[i].phase, Pressure(c.phaseToLanes[i].lanes, waiting));
    assert 0 <= i < |c.phaseToLanes| && FirstMaximumAt(c.phaseToLanes, waiting, i);
  }

  /** When no lane of any entry has waited, GREEN never switches. */
  lemma {:induction false} IdleKeepsPhase(c: LightControl, current: nat, waiting: map<Lane, nat>)
    requires c.state == Green
    requires forall i, j :: 0 <= i < |c.phaseToLanes| && 0 <= j < |c.phaseToLanes[i].lanes| ==>
               WaitingIn(waiting, c.phaseToLanes[i].lanes[j]) == 0
    ensures ControlStep(c, current, waiting).call == None
  {
    if c.timer + 1 >= MIN_GREEN_TIME && c.phaseToLanes != [] {
      SelectIsFirstMaximum(c.phaseToLanes, waiting, current);
      var i :| 0 <= i < |c.phaseToLanes| && FirstMaximumAt(c.phaseToLanes, waiting, i) &&
               Select(c.phaseToLanes, waiting, current) ==
                 Choice(c.phaseToLanes[i].phase, Pressure(c.phaseToLanes[i].lanes, waiting));
      PressureZero(c.phaseToLanes[i].lanes, waiting);
    }
  }

  /** Equal pressure does not favour the phase being shown: with phase 2
      showing and phases 0 and 2 both at pressure 5, the call switches to 0. */
  lemma TieSwitchesAway()
    ensures var c := LightControl([PhaseLanes(0, ["a"]), PhaseLanes(2, ["b"])], map[], MIN_GREEN_TIME - 1, Green, None);
            ControlStep(c, 2, map["a" := 5, "b" := 5]).call == Some(0)
  {
    var entries := [PhaseLanes(0, ["a"]), PhaseLanes(2, ["b"])];
    var waiting := map["a" := 5, "b" := 5];
    assert entries[..1] == [PhaseLanes(0, ["a"])];
    var a: seq<Lane> := ["a"];
    var b: seq<Lane> := ["b"];
    assert a[..0] == [] && b[..0] == [];
    assert Pressure(a, waiting) == 5 && Pressure(b, waiting) == 5;
    assert entries[..1][..0] == [];
    assert Select(entries, waiting, 2) == Choice(0, 5);
  }

  /** What one light sees at one call: the phase shown and the waiting times. */
  datatype Input = Input(shown: nat, waiting: map<Lane, nat>)

  /** The phases one light sets over successive state-machine calls, one
      entry per call. */
  function Replay(c: LightControl, inputs: seq<Input>): (r: seq<Option<nat>>)
    requires c.state == Yellow ==> c.targetPhase.Some?
    ensures |r| == |inputs|
    decreases |inputs|
  {
    if inputs == [] then []
    else
      var d := ControlStep(c, inputs[0].shown, inputs[0].waiting);
      [d.call] + Replay(d.control, inputs[1..])
  }

  /** Minimum green: a GREEN light sets no phase while its timer stays
      below MIN_GREEN_TIME, whatever the waiting times. */
  lemma {:induction false} MinGreenHolds(c: LightControl, inputs: seq<Input>)
    requires c.state == Green && c.timer + |inputs| < MIN_GREEN_TIME
    ensures forall k :: 0 <= k < |inputs| ==> Replay(c, inputs)[k] == None
    decreases |inputs|
  {
    if inputs != [] {
      var d := ControlStep(c, inputs[0].shown, inputs[0].waiting);
      MinGreenHolds(d.control, inputs[1..]);
    }
  }

  /** A yellow clearance with `k` calls to go makes `k - 1` silent calls
      and then sets its target phase; one entered with timer 0 therefore
      sets nothing for three calls and the target at the fourth. */
  lemma {:induction false} YellowRunsOut(c: LightControl, inputs: seq<Input>)
    requires c.state == Yellow && c.targetPhase.Some? && c.timer < YELLOW_PHASE_DURATION
    requires |inputs| == YELLOW_PHASE_DURATION - c.timer
    ensures forall k :: 0 <= k < |inputs| - 1 ==> Replay(c, inputs)[k] == None
    ensures Replay(c, inputs)[|inputs| - 1] == c.targetPhase
    decreases |inputs|
  {
    var d := ControlStep(c, inputs[0].shown, inputs[0].waiting);
    if |inputs| > 1 {
      YellowRunsOut(d.control, inputs[1..]);
    }
  }

  function CallOf(id: TlsId, call: Option<nat>): seq<PhaseCall>
  {
    if call.Some? then [PhaseCall(id, call.value)] else []
  }

  /** The freshly discovered bookkeeping of a light: the tables its phases
      and links determine, timer 0, GREEN, no target. */
  ghost predicate Discovered(c: LightControl, phases: seq<string>, links: seq<seq<Link>>)
  {
    && PhaseToLanesSpec(c.phaseToLanes, phases, links)
    && YellowMapSpec(c.yellowPhaseMap, phases)
    && c.timer == 0 && c.state == Green && c.targetPhase == None
  }

  lemma DiscoveredIsWellFormed(c: LightControl, phases: seq<string>, links: seq<seq<Link>>)
    requires Discovered(c, phases, links)
    ensures WellFormed(c, |phases|)
  {
    PhasesBelowMeans(c.phaseToLanes, |phases|);
  }

  // ---------------------------------------------------------------------
  // All lights in one step

  /** The phase a light shows after a call. */
  function AfterCall(shown: nat, call: Option<nat>): nat
  {
    if call.Some? then call.value else shown
  }

  /** Every light in YELLOW knows the phase it is heading for. */
  ghost predicate TargetsKnown(lights: map<TlsId, LightControl>)
  {
    forall id :: id in lights ==> (lights[id].state == Yellow ==> lights[id].targetPhase.Some?)
  }

  /** What automatic control acts on: the bookkeeping of every light, the
      phase the simulator shows for each, and the log of phase calls. */
  datatype Fleet = Fleet(lights: map<TlsId, LightControl>, shown: map<TlsId, nat>, log: seq<PhaseCall>)

  /** A light whose call the state machine can take: it is in the table,
      the simulator shows a phase for it, and in YELLOW it has a target. */
  predicate Steppable(f: Fleet, id: TlsId)
  {
    id in f.lights && id in f.shown && (f.lights[id].state == Yellow ==> f.lights[id].targetPhase.Some?)
  }

  /** One state-machine call for light `id`, fed `shown` as the phase it
      shows: its bookkeeping takes the step, its phase follows the call,
      and the call is logged. */
  function StepLight(f: Fleet, id: TlsId, shown: nat, waiting: map<Lane, nat>): Fleet
  {
    if Steppable(f, id) then
      var d := ControlStep(f.lights[id], shown, waiting);
      Fleet(f.lights[id := d.control], f.shown[id := AfterCall(f.shown[id], d.call)], f.log + CallOf(id, d.call))
    else f
  }

  /** State-machine calls for the lights `ids`, one after another, each fed
      the phase the simulator shows for it at that moment. */
  function AutoControl(ids: seq<TlsId>, f: Fleet, waiting: map<Lane, nat>): Fleet
  {
    if ids == [] then f
    else
      var g := AutoControl(ids[..|ids| - 1], f, waiting);
      var id := ids[|ids| - 1];
      StepLight(g, id, if id in g.shown then g.shown[id] else 0, waiting)
  }

  /** One more light of the list handled. */
  lemma AutoControlNext(ids: seq<TlsId>, i: nat, f: Fleet, waiting: map<Lane, nat>, shown: nat)
    requires i < |ids| && ids[i] in AutoControl(ids[..i], f, waiting).shown
    requires shown == AutoControl(ids[..i], f, waiting).shown[ids[i]]
    ensures AutoControl(ids[..i + 1], f, waiting) == StepLight(AutoControl(ids[..i], f, waiting), ids[i], shown, waiting)
  {
    assert ids[..i + 1][..i] == ids[..i];
  }

  /** The call light `id` makes from fleet state `f`, fed the phase it shows. */
  function CallFrom(f: Fleet, id: TlsId, waiting: map<Lane, nat>): seq<PhaseCall>
  {
    if Steppable(f, id) then CallOf(id, ControlStep(f.lights[id], f.shown[id], waiting).call) else []
  }

  /** The calls every light of `ids` makes from its state in `f`, in list order. */
  function AutoCalls(ids: seq<TlsId>, f: Fleet, waiting: map<Lane, nat>): seq<PhaseCall>
  {
    if ids == [] then [] else AutoCalls(ids[..|ids| - 1], f, waiting) + CallFrom(f, ids[|ids| - 1], waiting)
  }

  lemma StepLightLog(g: Fleet, id: TlsId, waiting: map<Lane, nat>)
    requires id in g.shown
    ensures StepLight(g, id, g.shown[id], waiting).log == g.log + CallFrom(g, id, waiting)
  {
  }

  /** Over distinct lights, each light's step depends on its own bookkeeping
      and shown phase only: a listed light takes exactly one step from its
      original state, any other light is untouched. */
  lemma {:induction false} AutoControlAt(ids: seq<TlsId>, f: Fleet, waiting: map<Lane, nat>, id: TlsId)
    requires forall id :: id in ids ==> id in f.lights && id in f.shown
    requires TargetsKnown(f.lights) && Distinct(ids)
    requires id in f.lights && id in f.shown
    ensures id in AutoControl(ids, f, waiting).lights && id in AutoControl(ids, f, waiting).shown
    ensures var r := AutoControl(ids, f, waiting);
            var d := ControlStep(f.lights[id], f.shown[id], waiting);
            && r.lights[id] == (if id in ids then d.control else f.lights[id])
            && r.shown[id] == (if id in ids then AfterCall(f.shown[id], d.call) else f.shown[id])
  {
    if ids != [] {
      var init := ids[..|ids| - 1];
      assert forall i :: 0 <= i < |init| ==> init[i] == ids[i];
      assert id in ids <==> id in init || id == ids[|ids| - 1];
      AutoControlAt(init, f, waiting, id);
    }
  }

  /** Over distinct lights, the calls are each light's own call, in list order. */
  lemma {:induction false} AutoControlLog(ids: seq<TlsId>, f: Fleet, waiting: map<Lane, nat>)
    requires forall id :: id in ids ==> id in f.lights && id in f.shown
    requires TargetsKnown(f.lights) && Distinct(ids)
    ensures AutoControl(ids, f, waiting).log == f.log + AutoCalls(ids, f, waiting)
  {
    if ids != [] {
      var init := ids[..|ids| - 1];
      var last := ids[|ids| - 1];
      assert forall i :: 0 <= i < |init| ==> init[i] == ids[i];
      assert last !in init;
      AutoControlLog(init, f, waiting);
      AutoControlAt(init, f, waiting, last);
      var g := AutoControl(init, f, waiting);
      StepLightLog(g, last, waiting);
      assert CallFrom(g, last, waiting) == CallFrom(f, last, waiting);
    }
  }

  /** Every light of `ids` set to `phase`. */
  function SetAll(shown: map<TlsId, nat>, ids: seq<TlsId>, phase: nat): map<TlsId, nat>
  {
    if ids == [] then shown else SetAll(shown, ids[..|ids| - 1], phase)[ids[|ids| - 1] := phase]
  }

  lemma {:induction false} SetAllPerLight(shown: map<TlsId, nat>, ids: seq<TlsId>, phase: nat, id: TlsId)
    requires id in shown || id in ids
    ensures id in SetAll(shown, ids, phase)
    ensures SetAll(shown, ids, phase)[id] == if id in ids then phase else shown[id]
  {
    if ids != [] {
      var init := ids[..|ids| - 1];
      if id != ids[|ids| - 1] {
        assert id in ids ==> id in init;
        SetAllPerLight(shown, init, phase, id);
      }
    }
  }

  /** The same phase set on every light of `ids`, in list order. */
  function ManualCalls(ids: seq<TlsId>, phase: int): (r: seq<PhaseCall>)
  {
    if ids == [] then [] else ManualCalls(ids[..|ids| - 1], phase) + [PhaseCall(ids[|ids| - 1], phase)]
  }

  lemma {:induction false} ManualCallsAre(ids: seq<TlsId>, phase: int)
    ensures |ManualCalls(ids, phase)| == |ids|
    ensures forall i :: 0 <= i < |ids| ==> ManualCalls(ids, phase)[i] == PhaseCall(ids[i], phase)
  {
    if ids != [] {
      ManualCallsAre(ids[..|ids| - 1], phase);
    }
  }

  /** setPhase(id, phase) for every light of `ids` in turn, stopping at
      the first call the simulator rejects. */
  method SetEveryLight(engine: Engine, ids: seq<TlsId>, phase: int) returns (ok: bool)
    requires engine.Valid()
    modifies engine`current, engine`log
    ensures engine.Valid()
    ensures ok <==> forall id :: id in ids ==> id in engine.phases && 0 <= phase < |engine.phases[id]|
    ensures ok ==> engine.log == old(engine.log) + ManualCalls(ids, phase)
    ensures ok && ids != [] ==> 0 <= phase && engine.current == SetAll(old(engine.current), ids, phase as nat)
    ensures ok && ids == [] ==> engine.current == old(engine.current)
  {
    var i := 0;
    while i < |ids|
      invariant 0 <= i <= |ids|
      invariant engine.Valid()
      invariant forall t :: 0 <= t < i ==> ids[t] in engine.phases && 0 <= phase < |engine.phases[ids[t]]|
      invariant engine.log == old(engine.log) + ManualCalls(ids[..i], phase)
      invariant i == 0 ==> engine.current == old(engine.current)
      invariant i > 0 ==> 0 <= phase && engine.current == SetAll(old(engine.current), ids[..i], phase as nat)
    {
      ok := engine.SetPhase(ids[i], phase);
      if !ok {
        return;
      }
      assert ids[..i + 1][..i] == ids[..i];
      i := i + 1;
    }
    assert ids[..i] == ids;
    ok := true;
  }

  // ---------------------------------------------------------------------
  // One pass of the step loop, and the whole loop

  /** The controls after taking at most one command off the queue. */
  function TakeCommand(c: CommandState): CommandState
  {
    if c.queue == [] then c
    else
      var rest := c.(queue := c.queue[1..]);
      match c.queue[0]
      case SetMode(mode) => rest.(mode := Lower(mode), target := None)
      case ForcePhase(phase) =>
        if c.mode == "manual" && c.target != phase then rest.(target := phase, changed := true) else rest
      case Unrecognised => rest
      case Malformed => rest
  }

  /** Taking the next command raises: it is not a JSON object. */
  predicate CommandRaises(c: CommandState)
  {
    c.queue != [] && c.queue[0].Malformed?
  }

  /** Taking a command: the queue loses its head; set_mode lower-cases the
      mode and clears the target; force_phase acts only in "manual" mode
      with a new value, which it stores and marks pending; anything else
      changes nothing. */
  lemma TakeCommandMeans(c: CommandState)
    ensures var r := TakeCommand(c);
            && (c.queue == [] ==> r == c)
            && (c.queue != [] ==> r.queue == c.queue[1..])
            && (c.queue != [] && c.queue[0].SetMode? ==>
                  r.mode == Lower(c.queue[0].mode) && r.target == None && r.changed == c.changed)
            && (c.queue != [] && c.queue[0].ForcePhase? ==>
                  && r.mode == c.mode
                  && (if c.mode == "manual" && c.target != c.queue[0].phase
                      then r.target == c.queue[0].phase && r.changed
                      else r.target == c.target && r.changed == c.changed))
            && (c.queue != [] && !c.queue[0].SetMode? && !c.queue[0].ForcePhase? ==>
                  r.mode == c.mode && r.target == c.target && r.changed == c.changed)
  {
  }

  /** The forced phase is a phase of every light of `order`. */
  predicate PhaseEverywhere(order: seq<TlsId>, phases: map<TlsId, seq<string>>, phase: int)
  {
    forall id :: id in order ==> id in phases && 0 <= phase < |phases[id]|
  }

  /** The manual override of one pass with controls `c`: in "manual" mode
      with a pending change, the forced phase is set on every light of
      `order` in turn; None when there is no value or a light rejects it. */
  function Override(c: CommandState, order: seq<TlsId>, phases: map<TlsId, seq<string>>, f: Fleet): Option<Fleet>
  {
    if !(c.mode == "manual" && c.changed) || order == [] then Some(f)
    else if c.target.None? || !PhaseEverywhere(order, phases, c.target.value) then None
    else
      assert order[0] in order;
      Some(f.(shown := SetAll(f.shown, order, c.target.value as nat),
              log := f.log + ManualCalls(order, c.target.value)))
  }

  /** Without a pending change in "manual" mode the override does nothing;
      with one, it succeeds iff there are no lights or the value is a phase
      of every light, and then it logs one call per light in table order
      and every listed light shows the forced phase, the others keeping
      theirs. */
  lemma OverrideMeans(c: CommandState, order: seq<TlsId>, phases: map<TlsId, seq<string>>, f: Fleet)
    ensures var o := Override(c, order, phases, f);
            && (!(c.mode == "manual" && c.changed) ==> o == Some(f))
            && (c.mode == "manual" && c.changed ==>
                  (o.Some? <==> order == [] || (c.target.Some? && PhaseEverywhere(order, phases, c.target.value))))
            && (o.Some? ==> o.value.lights == f.lights)
            && (o.Some? && c.mode == "manual" && c.changed ==>
                  && |o.value.log| == |f.log| + |order| && o.value.log[..|f.log|] == f.log
                  && (forall i :: 0 <= i < |order| ==> o.value.log[|f.log| + i] == PhaseCall(order[i], c.target.value))
                  && (forall id :: id in f.shown || id in order ==>
                        id in o.value.shown && o.value.shown[id] == if id in order then c.target.value else f.shown[id]))
  {
    var o := Override(c, order, phases, f);
    if o.Some? && c.mode == "manual" && c.changed && order != [] {
      var v := c.target.value;
      assert order[0] in order;
      ManualCallsAre(order, v);
      assert o.value.log == f.log + ManualCalls(order, v);
      forall id | id in f.shown || id in order
        ensures id in o.value.shown && o.value.shown[id] == if id in order then v else f.shown[id]
      {
        SetAllPerLight(f.shown, order, v as nat, id);
      }
    }
  }

  /** What the step loop works on: the controls, the light table and its
      order, the simulator's changing state and the log of phase calls. */
  datatype World = World(controls: CommandState, lights: map<TlsId, LightControl>, order: seq<TlsId>,
                         sim: SimState, log: seq<PhaseCall>)

  /** One pass of the step loop: take a command, apply a pending forced
      phase, step the simulator, and in "auto" mode run every light's state
      machine; None when the command or a forced phase raises. A completed
      pass keeps the order and makes progress. */
  function Pass(engine: Engine, w: World): (r: Option<World>)
    ensures r.Some? ==> r.value.order == w.order
    ensures r.Some? && w.sim.expected > 0 ==> engine.Left(r.value.sim) < engine.Left(w.sim)
  {
    if CommandRaises(w.controls) then None
    else
      var c := TakeCommand(w.controls);
      match Override(c, w.order, engine.phases, Fleet(w.lights, w.sim.current, w.log))
      case None => None
      case Some(f) =>
        var s := engine.Advanced(w.sim.(current := f.shown));
        var g := Fleet(f.lights, s.current, f.log);
        var h := if c.mode == "auto" then AutoControl(w.order, g, s.waiting) else g;
        Some(World(c.(changed := c.changed && c.mode != "manual"), h.lights, w.order, s.(current := h.shown), h.log))
  }

  /** The commands that reach the queue before the command of step `step` is taken. */
  function Arrived(arrivals: seq<seq<Command>>, step: nat): seq<Command>
  {
    if step < |arrivals| then arrivals[step] else []
  }

  /** The state `w` once the commands of step `step` have reached the queue. */
  function Arrive(w: World, arrivals: seq<seq<Command>>, step: nat): World
  {
    w.(controls := w.controls.(queue := w.controls.queue + Arrived(arrivals, step)))
  }

  /** `worlds` are the states of the step loop after 0, 1, ... completed
      passes, and `snaps` the snapshots queued: pass `k` ran because
      vehicles were expected, it went from `worlds[k]` (with the commands
      of step `k` arrived) to `worlds[k + 1]`, and its snapshot carries the
      step number and the mode after the pass. */
  ghost predicate Trace(engine: Engine, arrivals: seq<seq<Command>>, worlds: seq<World>, snaps: seq<QueueItem>)
  {
    && |worlds| == |snaps| + 1
    && forall k :: 0 <= k < |snaps| ==>
         && worlds[k].sim.expected > 0
         && Pass(engine, Arrive(worlds[k], arrivals, k)) == Some(worlds[k + 1])
         && snaps[k] == Snapshot(k, worlds[k + 1].controls.mode)
  }

  /** One more completed pass extends the trace. */
  lemma TraceNext(engine: Engine, arrivals: seq<seq<Command>>, worlds: seq<World>, snaps: seq<QueueItem>, w: World)
    requires Trace(engine, arrivals, worlds, snaps)
    requires worlds[|snaps|].sim.expected > 0
    requires Pass(engine, Arrive(worlds[|snaps|], arrivals, |snaps|)) == Some(w)
    ensures Trace(engine, arrivals, worlds + [w], snaps + [Snapshot(|snaps|, w.controls.mode)])
  {
    var worlds', snaps' := worlds + [w], snaps + [Snapshot(|snaps|, w.controls.mode)];
    forall k | 0 <= k < |snaps'|
      ensures && worlds'[k].sim.expected > 0
              && Pass(engine, Arrive(worlds'[k], arrivals, k)) == Some(worlds'[k + 1])
              && snaps'[k] == Snapshot(k, worlds'[k + 1].controls.mode)
    {
      assert worlds'[k] == worlds[k];
      if k < |snaps| {
        assert worlds'[k + 1] == worlds[k + 1];
      }
    }
  }

  /** Two traces from the same state agree on every state they both reach. */
  lemma {:induction false} TraceAgree(engine: Engine, arrivals: seq<seq<Command>>,
                                      worlds: seq<World>, snaps: seq<QueueItem>,
                                      worlds': seq<World>, snaps': seq<QueueItem>, k: nat)
    requires Trace(engine, arrivals, worlds, snaps) && Trace(engine, arrivals, worlds', snaps')
    requires worlds[0] == worlds'[0] && k <= |snaps| && k <= |snaps'|
    ensures worlds[k] == worlds'[k]
  {
    if k > 0 {
      TraceAgree(engine, arrivals, worlds, snaps, worlds', snaps', k - 1);
    }
  }

  /** The loop is determined by where it starts: two traces of the same
      length from the same state agree state by state and snapshot by
      snapshot. */
  lemma TraceUnique(engine: Engine, arrivals: seq<seq<Command>>,
                    worlds: seq<World>, snaps: seq<QueueItem>,
                    worlds': seq<World>, snaps': seq<QueueItem>)
    requires Trace(engine, arrivals, worlds, snaps) && Trace(engine, arrivals, worlds', snaps')
    requires |snaps| == |snaps'| && worlds[0] == worlds'[0]
    ensures worlds == worlds' && snaps == snaps'
  {
    forall k | 0 <= k < |worlds|
      ensures worlds[k] == worlds'[k]
    {
      TraceAgree(engine, arrivals, worlds, snaps, worlds', snaps', k);
    }
    forall k | 0 <= k < |snaps|
      ensures snaps[k] == snaps'[k]
    {
      TraceAgree(engine, arrivals, worlds, snaps, worlds', snaps', k + 1);
    }
  }

  /** A trace that starts with no pending change never has one. */
  lemma {:induction false} TraceNoPending(engine: Engine, arrivals: seq<seq<Command>>, worlds: seq<World>, snaps: seq<QueueItem>)
    requires Trace(engine, arrivals, worlds, snaps) && !worlds[0].controls.changed
    ensures forall k :: 0 <= k < |worlds| ==> !worlds[k].controls.changed
  {
    if snaps != [] {
      var n := |snaps| - 1;
      assert Trace(engine, arrivals, worlds[..n + 1], snaps[..n]);
      TraceNoPending(engine, arrivals, worlds[..n + 1], snaps[..n]);
      assert !worlds[..n + 1][n].controls.changed;
      PassMeans(engine, Arrive(worlds[n], arrivals, n));
    }
  }

  /** A pass takes one command and leaves no pending change; it fails
      exactly when the command or the override raises; outside "auto" mode
      the state machines do not run and the log holds only the override's
      calls. */
  lemma PassMeans(engine: Engine, w: World)
    requires !w.controls.changed
    ensures var c := TakeCommand(w.controls);
            var o := Override(c, w.order, engine.phases, Fleet(w.lights, w.sim.current, w.log));
            var r := Pass(engine, w);
            && (r.Some? <==> !CommandRaises(w.controls) && o.Some?)
            && (r.Some? ==> r.value.controls == c.(changed := false))
            && (r.Some? ==> r.value.sim.clock == engine.Advanced(w.sim).clock &&
                            r.value.sim.expected == engine.Advanced(w.sim).expected &&
                            r.value.sim.waiting == engine.Advanced(w.sim).waiting)
            && (r.Some? && c.mode != "auto" ==> r.value.lights == w.lights && r.value.log == o.value.log)
  {
  }

  /** In "auto" mode the override does nothing, and the calls of a pass are
      each light's own call from the state after the simulator step, in
      table order. */
  lemma PassAutoLog(engine: Engine, w: World)
    requires !w.controls.changed && Pass(engine, w).Some? && TakeCommand(w.controls).mode == "auto"
    requires Distinct(w.order) && TargetsKnown(w.lights)
    requires forall id :: id in w.order ==> id in w.lights && id in w.sim.current
    ensures var s := engine.Advanced(w.sim);
            Pass(engine, w).value.log == w.log + AutoCalls(w.order, Fleet(w.lights, s.current, w.log), s.waiting)
  {
    var s := engine.Advanced(w.sim);
    assert forall id :: id in w.sim.current ==> id in s.current;
    AutoControlLog(w.order, Fleet(w.lights, s.current, w.log), s.waiting);
  }

  // ---------------------------------------------------------------------
  // The controller object

  /** Every light of `ids` has freshly discovered bookkeeping in `lights`. */
  ghost predicate AllDiscovered(ids: seq<TlsId>, lights: map<TlsId, LightControl>,
                                phases: map<TlsId, seq<string>>, links: map<TlsId, seq<seq<Link>>>)
  {
    ids == [] ||
    (var id := ids[|ids| - 1];
     && AllDiscovered(ids[..|ids| - 1], lights, phases, links)
     && id in lights && id in phases && id in links
     && Discovered(lights[id], phases[id], links[id]))
  }

  lemma {:induction false} AllDiscoveredMeans(ids: seq<TlsId>, lights: map<TlsId, LightControl>,
                                              phases: map<TlsId, seq<string>>, links: map<TlsId, seq<seq<Link>>>)
    requires AllDiscovered(ids, lights, phases, links)
    ensures forall id :: id in ids ==>
              id in lights && id in phases && id in links && Discovered(lights[id], phases[id], links[id])
  {
    if ids != [] {
      var init := ids[..|ids| - 1];
      AllDiscoveredMeans(init, lights, phases, links);
      assert forall id :: id in ids ==> id in init || id == ids[|ids| - 1];
    }
  }

  /** Entering one more discovered light keeps the others discovered. */
  lemma {:induction false} AllDiscoveredUpdate(ids: seq<TlsId>, lights: map<TlsId, LightControl>,
                                               phases: map<TlsId, seq<string>>, links: map<TlsId, seq<seq<Link>>>,
                                               id: TlsId, c: LightControl)
    requires AllDiscovered(ids, lights, phases, links)
    requires id in phases && id in links && Discovered(c, phases[id], links[id])
    ensures AllDiscovered(ids, lights[id := c], phases, links)
  {
    if ids != [] {
      AllDiscoveredUpdate(ids[..|ids| - 1], lights, phases, links, id, c);
    }
  }

  lemma AllDiscoveredNext(ids: seq<TlsId>, i: nat, lights: map<TlsId, LightControl>,
                          phases: map<TlsId, seq<string>>, links: map<TlsId, seq<seq<Link>>>, c: LightControl)
    requires i < |ids| && AllDiscovered(ids[..i], lights, phases, links)
    requires ids[i] in phases && ids[i] in links && Discovered(c, phases[ids[i]], links[ids[i]])
    ensures AllDiscovered(ids[..i + 1], lights[ids[i] := c], phases, links)
  {
    AllDiscoveredUpdate(ids[..i], lights, phases, links, ids[i], c);
    assert ids[..i + 1][..i] == ids[..i];
  }

  /** The lights of a list, as a set. */
  ghost function Members(ids: seq<TlsId>): set<TlsId>
  {
    if ids == [] then {} else Members(ids[..|ids| - 1]) + {ids[|ids| - 1]}
  }

  lemma {:induction false} MembersMeans(ids: seq<TlsId>)
    ensures forall id :: id in Members(ids) <==> id in ids
  {
    if ids != [] {
      var init := ids[..|ids| - 1];
      MembersMeans(init);
      assert forall id :: id in ids <==> id in init || id == ids[|ids| - 1];
    }
  }

  lemma MembersNext(ids: seq<TlsId>, i: nat)
    requires i < |ids|
    ensures Members(ids[..i + 1]) == Members(ids[..i]) + {ids[i]}
  {
    assert ids[..i + 1][..i] == ids[..i];
  }

  /** (Re)entering a light keeps the order list in step with the table,
      appending the light only when it is new. */
  lemma EnterKeepsOrder(order: seq<TlsId>, lights: map<TlsId, LightControl>, id: TlsId, c: LightControl)
    requires OrderOf(order, lights)
    ensures var order' := if id in lights then order else order + [id];
            OrderOf(order', lights[id := c]) && order <= order'
  {
    if id !in lights {
      var order' := order + [id];
      assert forall t :: 0 <= t < |order| ==> order'[t] == order[t];
      assert forall x :: x in order' <==> x in order || x == id;
    }
  }

  lemma EnterKeepsWellFormed(lights: map<TlsId, LightControl>, phases: map<TlsId, seq<string>>,
                             id: TlsId, c: LightControl)
    requires LightsWellFormed(lights, phases) && id in phases && WellFormed(c, |phases[id]|)
    ensures LightsWellFormed(lights[id := c], phases)
  {
  }

  /** `order` lists every light of the table exactly once. */
  ghost predicate OrderOf(order: seq<TlsId>, lights: map<TlsId, LightControl>)
  {
    Distinct(order) && forall id :: id in order <==> id in lights
  }

  /** Every light of the table is a light of the network, and its
      bookkeeping is well-formed for its phase count. */
  ghost predicate LightsWellFormed(lights: map<TlsId, LightControl>, phases: map<TlsId, seq<string>>)
  {
    forall id :: id in lights ==> id in phases && WellFormed(lights[id], |phases[id]|)
  }

  class SimulationManager {
    var trafficLights: map<TlsId, LightControl>
    var lightOrder: seq<TlsId>       // the order in which the lights were entered
    var controlMode: string
    var manualPhaseTarget: Option<int>
    var manualPhaseChanged: bool
    var commandQueue: seq<Command>

    ghost predicate Valid(engine: Engine)
      reads this, engine
    {
      engine.Valid() && OrderOf(lightOrder, trafficLights) && LightsWellFormed(trafficLights, engine.phases)
    }

    function Controls(): CommandState
      reads this
    {
      CommandState(commandQueue, controlMode, manualPhaseTarget, manualPhaseChanged)
    }

    ghost function State(engine: Engine): World
      reads this, engine
    {
      World(Controls(), trafficLights, lightOrder, engine.Sim(), engine.log)
    }

    constructor (commandQueue: seq<Command>)
      ensures trafficLights == map[] && lightOrder == []
      ensures controlMode == "auto" && manualPhaseTarget == None && !manualPhaseChanged
      ensures this.commandQueue == commandQueue
    {
      trafficLights, lightOrder := map[], [];
      controlMode := "auto";
      manualPhaseTarget, manualPhaseChanged := None, false;
      this.commandQueue := commandQueue;
    }

    /** Take at most one command off the queue and apply it; `ok` is false
        when the command is not a JSON object, whose lookup raises. */
    method ProcessCommands() returns (ok: bool)
      modifies this`commandQueue, this`controlMode, this`manualPhaseTarget, this`manualPhaseChanged
      ensures Controls() == TakeCommand(old(Controls()))
      ensures ok <==> !CommandRaises(old(Controls()))
    {
      ok := true;
      if commandQueue != [] {
        var cmd := commandQueue[0];
        commandQueue := commandQueue[1..];
        match cmd
        case SetMode(mode) =>
          controlMode := Lower(mode);
          manualPhaseTarget := None;
        case ForcePhase(phase) =>
          if controlMode == "manual" && manualPhaseTarget != phase {
            manualPhaseTarget := phase;
            manualPhaseChanged := true;
          }
        case Unrecognised =>
        case Malformed =>
          ok := false;
      }
    }

    /** Discover one light and (re)enter its bookkeeping: a new light goes
        to the end of the order, a known one keeps its place. */
    method EnterLight(id: TlsId, engine: Engine)
      requires Valid(engine) && id in engine.phases && id in engine.links
      modifies this`trafficLights, this`lightOrder
      ensures Valid(engine)
      ensures id in trafficLights && trafficLights == old(trafficLights)[id := trafficLights[id]]
      ensures Discovered(trafficLights[id], engine.phases[id], engine.links[id])
      ensures lightOrder == EnterOrder(old(lightOrder), [id])
    {
      var phaseToLanes, yellowPhaseMap := DiscoverLight(engine.phases[id], engine.links[id]);
      var c := LightControl(phaseToLanes, yellowPhaseMap, 0, Green, None);
      DiscoveredIsWellFormed(c, engine.phases[id], engine.links[id]);
      EnterKeepsOrder(lightOrder, trafficLights, id, c);
      EnterKeepsWellFormed(trafficLights, engine.phases, id, c);
      if id !in trafficLights {
        lightOrder := lightOrder + [id];
      }
      trafficLights := trafficLights[id := c];
    }

    /** Discover every light of the network and (re)enter its bookkeeping. */
    method DiscoverNetworkAndPhases(engine: Engine)
      requires Valid(engine)
      modifies this`trafficLights, this`lightOrder
      ensures Valid(engine)
      ensures forall id :: id in trafficLights <==> id in old(trafficLights) || id in engine.tlsIds
      ensures AllDiscovered(engine.tlsIds, trafficLights, engine.phases, engine.links)
      ensures forall id :: id in old(trafficLights) && id !in engine.tlsIds ==>
                trafficLights[id] == old(trafficLights[id])
      ensures lightOrder == EnterOrder(old(lightOrder), engine.tlsIds)
      ensures old(lightOrder) == [] && Distinct(engine.tlsIds) ==> lightOrder == engine.tlsIds
    {
      var i := 0;
      while i < |engine.tlsIds|
        invariant 0 <= i <= |engine.tlsIds|
        invariant Valid(engine)
        invariant trafficLights.Keys == old(trafficLights).Keys + Members(engine.tlsIds[..i])
        invariant AllDiscovered(engine.tlsIds[..i], trafficLights, engine.phases, engine.links)
        invariant forall id :: id in old(trafficLights) && id !in Members(engine.tlsIds[..i]) ==>
                    trafficLights[id] == old(trafficLights[id])
        invariant lightOrder == EnterOrder(old(lightOrder), engine.tlsIds[..i])
      {
        var id := engine.tlsIds[i];
        MembersNext(engine.tlsIds, i);
        EnterOrderNext(old(lightOrder), engine.tlsIds, i);
        ghost var before := trafficLights;
        EnterLight(id, engine);
        AllDiscoveredNext(engine.tlsIds, i, before, engine.phases, engine.links, trafficLights[id]);
        i := i + 1;
      }
      assert engine.tlsIds[..i] == engine.tlsIds;
      MembersMeans(engine.tlsIds);
      if old(lightOrder) == [] && Distinct(engine.tlsIds) {
        EnterOrderFresh(engine.tlsIds);
      }
    }

    /** One call of the state machine of light `id`, which shows
        `currentPhaseIndex`; the phase it sets is always accepted. */
    method ControlTrafficLightStateMachine(id: TlsId, currentPhaseIndex: nat, engine: Engine)
      requires Valid(engine) && id in trafficLights && currentPhaseIndex < |engine.phases[id]|
      modifies this`trafficLights, engine`current, engine`log
      ensures Valid(engine)
      ensures Fleet(trafficLights, engine.current, engine.log) ==
                StepLight(Fleet(old(trafficLights), old(engine.current), old(engine.log)), id, currentPhaseIndex, engine.waiting)
    {
      ghost var n := |engine.phases[id]|;
      ghost var d := ControlStep(trafficLights[id], currentPhaseIndex, engine.waiting);
      ControlStepKeepsWellFormed(trafficLights[id], n, currentPhaseIndex, engine.waiting);
      var c := trafficLights[id];
      c := c.(timer := c.timer + 1);
      ghost var call: Option<nat> := None;
      if c.state == Yellow {
        if c.timer >= YELLOW_PHASE_DURATION {
          var ok := engine.SetPhase(id, c.targetPhase.value);
          call := Some(c.targetPhase.value);
          c := c.(state := Green, timer := 0);
        }
      } else if c.timer >= MIN_GREEN_TIME {
        var best, maxPressure := SelectBestPhase(c.phaseToLanes, engine.waiting, currentPhaseIndex);
        if best != currentPhaseIndex && maxPressure > 0 {
          if currentPhaseIndex in c.yellowPhaseMap {
            var yellow := c.yellowPhaseMap[currentPhaseIndex];
            var ok := engine.SetPhase(id, yellow);
            call := Some(yellow);
            c := c.(state := Yellow, targetPhase := Some(best), timer := 0);
          } else {
            var ok := engine.SetPhase(id, best);
            call := Some(best);
            c := c.(timer := 0);
          }
        }
      }
      assert c == d.control && call == d.call;
      assert engine.log == old(engine.log) + CallOf(id, call);
      assert engine.current == old(engine.current)[id := AfterCall(old(engine.current[id]), call)];
      trafficLights := trafficLights[id := c];
    }

    /** In manual mode with a pending forced phase, set it on every light
        (in table order) and clear the pending flag; `ok` is false when the
        simulator (or the client, for a missing value) rejected a call,
        which ends the step loop. */
    method ApplyManualOverride(engine: Engine) returns (ok: bool)
      requires Valid(engine)
      modifies this`manualPhaseChanged, engine`current, engine`log
      ensures Valid(engine)
      ensures var o := Override(old(Controls()), lightOrder, engine.phases,
                                Fleet(trafficLights, old(engine.current), old(engine.log)));
              && (ok <==> o.Some?)
              && (ok ==> && Fleet(trafficLights, engine.current, engine.log) == o.value
                         && manualPhaseChanged == (old(manualPhaseChanged) && controlMode != "manual"))
    {
      ok := true;
      if controlMode == "manual" && manualPhaseChanged {
        if lightOrder != [] {
          if manualPhaseTarget.None? {
            ok := false;
            return;
          }
          ok := SetEveryLight(engine, lightOrder, manualPhaseTarget.value);
          if !ok {
            return;
          }
        }
        manualPhaseChanged := false;
      }
    }

    /** In automatic mode, run the state machine of every light (in table
        order), each with the phase the simulator shows for it at that
        moment. */
    method RunStateMachines(engine: Engine)
      requires Valid(engine)
      modifies this`trafficLights, engine`current, engine`log
      ensures Valid(engine)
      ensures controlMode != "auto" ==>
                trafficLights == old(trafficLights) && engine.log == old(engine.log) &&
                engine.current == old(engine.current)
      ensures controlMode == "auto" ==>
                Fleet(trafficLights, engine.current, engine.log) ==
                AutoControl(lightOrder, Fleet(old(trafficLights), old(engine.current), old(engine.log)), engine.waiting)
    {
      if controlMode == "auto" {
        ghost var start := Fleet(trafficLights, engine.current, engine.log);
        ghost var waiting := engine.waiting;
        var i := 0;
        while i < |lightOrder|
          invariant 0 <= i <= |lightOrder|
          invariant Valid(engine) && engine.waiting == waiting
          invariant Fleet(trafficLights, engine.current, engine.log) == AutoControl(lightOrder[..i], start, waiting)
        {
          var id := lightOrder[i];
          var shown := engine.GetPhase(id);
          AutoControlNext(lightOrder, i, start, waiting, shown);
          ControlTrafficLightStateMachine(id, shown, engine);
          i := i + 1;
        }
        assert lightOrder[..i] == lightOrder;
      }
    }

    /** Commands that reach the queue. */
    method Receive(arrived: seq<Command>)
      modifies this`commandQueue
      ensures commandQueue == old(commandQueue) + arrived
    {
      commandQueue := commandQueue + arrived;
    }

    /** One pass of the step loop: take a command, apply a pending manual
        phase, advance the simulator and run the automatic control; `ok` is
        false when the command or a manual phase raised, before the
        simulator moved. */
    method Step(engine: Engine) returns (ok: bool)
      requires Valid(engine)
      modifies this`commandQueue, this`controlMode, this`manualPhaseTarget, this`manualPhaseChanged
      modifies this`trafficLights, engine`current, engine`log, engine`waiting, engine`halting
      modifies engine`expected, engine`clock, engine`steps
      ensures Valid(engine)
      ensures var p := Pass(engine, old(State(engine)));
              && (ok <==> p.Some?)
              && (ok ==> State(engine) == p.value)
      ensures engine.steps == old(engine.steps) + (if ok then 1 else 0)
    {
      ghost var w := State(engine);
      ok := ProcessCommands();
      if !ok {
        return;
      }
      ok := ApplyManualOverride(engine);
      if !ok {
        return;
      }
      ghost var f := Fleet(trafficLights, engine.current, engine.log);
      engine.SimulationStep();
      ghost var g := Fleet(trafficLights, engine.current, engine.log);
      RunStateMachines(engine);
      assert g == Fleet(f.lights, engine.Advanced(w.sim.(current := f.shown)).current, f.log);
    }

    /** The loop of the step loop: while vehicles are expected run a pass
        and queue a snapshot; queue the end marker after the loop.
        `arrivals[s]` are the commands that reach the command queue before
        the command of step `s` is taken. `worlds` are the states after
        each completed pass. */
    method ServeLoop(engine: Engine, arrivals: seq<seq<Command>>)
      returns (items: seq<QueueItem>, crashed: bool, ghost worlds: seq<World>)
      requires Valid(engine)
      modifies this`commandQueue, this`controlMode, this`manualPhaseTarget, this`manualPhaseChanged
      modifies this`trafficLights, engine`current, engine`log, engine`waiting, engine`halting
      modifies engine`expected, engine`clock, engine`steps
      ensures Valid(engine)
      ensures |worlds| > 0 && worlds[0] == old(State(engine))
      ensures |items| == |worlds| - (if crashed then 1 else 0)
      ensures Trace(engine, arrivals, worlds, items[..|worlds| - 1])
      ensures var n := |worlds| - 1;
              crashed ==> worlds[n].sim.expected > 0 && Pass(engine, Arrive(worlds[n], arrivals, n)).None?
      ensures !crashed ==> && items[|items| - 1] == EndOfSimulation
                           && worlds[|worlds| - 1].sim.expected == 0 && State(engine) == worlds[|worlds| - 1]
      ensures engine.steps == old(engine.steps) + |worlds| - 1
    {
      worlds := [State(engine)];
      items, crashed := [], false;
      var step := 0;
      while engine.expected > 0
        invariant Valid(engine)
        invariant |items| == step && engine.steps == old(engine.steps) + step
        invariant Trace(engine, arrivals, worlds, items)
        invariant worlds[0] == old(State(engine)) && worlds[step] == State(engine)
        decreases engine.Left(engine.Sim())
      {
        ghost var w1 := Arrive(State(engine), arrivals, step);
        Receive(Arrived(arrivals, step));
        assert State(engine) == w1;
        var ok := Step(engine);
        if !ok {
          crashed := true;
          assert items[..|worlds| - 1] == items;
          return;
        }
        TraceNext(engine, arrivals, worlds, items, State(engine));
        worlds := worlds + [State(engine)];
        items := items + [Snapshot(step, controlMode)];
        step := step + 1;
      }
      assert (items + [EndOfSimulation])[..|worlds| - 1] == items;
      items := items + [EndOfSimulation];
    }

    /** run(): discover every light, then the step loop. `worlds[0]` is
        the state discovery leaves: the old state with every network light
        (re)entered and the order extended; the loop runs from there. */
    method Run(engine: Engine, arrivals: seq<seq<Command>>)
      returns (items: seq<QueueItem>, crashed: bool, ghost worlds: seq<World>)
      requires Valid(engine)
      modifies this`commandQueue, this`controlMode, this`manualPhaseTarget, this`manualPhaseChanged
      modifies this`trafficLights, this`lightOrder, engine`current, engine`log, engine`waiting, engine`halting
      modifies engine`expected, engine`clock, engine`steps
      ensures Valid(engine)
      ensures |worlds| > 0
      ensures worlds[0] == old(State(engine)).(lights := worlds[0].lights,
                                               order := EnterOrder(old(lightOrder), engine.tlsIds))
      ensures AllDiscovered(engine.tlsIds, worlds[0].lights, engine.phases, engine.links)
      ensures forall id :: id in worlds[0].lights <==> id in old(trafficLights) || id in engine.tlsIds
      ensures |items| == |worlds| - (if crashed then 1 else 0)
      ensures Trace(engine, arrivals, worlds, items[..|worlds| - 1])
      ensures var n := |worlds| - 1;
              crashed ==> worlds[n].sim.expected > 0 && Pass(engine, Arrive(worlds[n], arrivals, n)).None?
      ensures !crashed ==> && items[|items| - 1] == EndOfSimulation
                           && worlds[|worlds| - 1].sim.expected == 0 && State(engine) == worlds[|worlds| - 1]
      ensures engine.steps == old(engine.steps) + |worlds| - 1
    {
      DiscoverNetworkAndPhases(engine);
      items, crashed, worlds := ServeLoop(engine, arrivals);
    }
  }
}
