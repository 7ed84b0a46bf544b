# Adaptive traffic-signal control: a Dafny model

The backend drives a SUMO traffic simulation through its TraCI control
interface. It contains two controllers:

- **The adaptive controller** (`backend/simulation_server.py`). It first
  discovers, for every traffic light, which phases are green, which yellow
  phase clears each green phase, and which incoming lanes each green phase
  serves. It then runs a per-light GREEN/YELLOW state machine:
  - a minimum green of 10 steps;
  - a yellow clearance of 4 steps;
  - max-pressure choice of the next green phase, where a phase's pressure
    is the summed waiting time of its lanes.

  An operator can switch between automatic and manual mode and can force a
  phase on every light. The step loop takes one command per step, applies
  a pending forced phase, advances the simulator, runs the state machines
  in automatic mode, and queues one snapshot per step. After the loop it
  queues an end marker.
- **The threshold controller** (`backend/simulation_manager.py`). A light
  without a running green hold scans its phases in order. It switches to
  the first green phase whose first controlled lane has a detector that
  reports more than 20 halting vehicles. It holds that phase for 20 calls,
  then moves the light to the next phase index.

The model has five modules:

- `Signals` (signals.dfy): identifiers, controlled links, ASCII
  lower-casing and the green/yellow classification of signal strings.
- `Traci` (engine.dfy): the simulator as the controllers see it. It is a
  class `Engine` with the fixed network and the changing state: the shown
  phase per light, waiting times, detector counts, expected vehicles, and a
  log of `setPhase` calls.
- `PhaseDiscovery` (discovery.dfy): the discovery passes as methods with
  loops. Each pass is proved against a specification of the tables:
  `PhaseToLanesSpec` and `YellowMapSpec`.
- `SimulationServer` (server.dfy): the adaptive controller.
  - The state machine `ControlStep` and the running maximum `Select` are
    pure specification functions.
  - The class `SimulationManager` has methods for command handling,
    discovery, the state machine, the manual override and the step loop.
    Each of these methods states its new fields and engine state through a
    specification function: `TakeCommand`, `Override`, `ControlStep`,
    `AutoControl` or `Pass`.
  - One pass of the step loop is the function `Pass` on a `World`, which
    holds the controls, the lights, the light order, the simulator state
    and the call log. `Step` is proved to perform exactly `Pass`.
  - `Run` returns the sequence of states after each pass as a ghost value.
    The predicate `Trace` relates that sequence to `Pass`: state k + 1 is
    the pass from state k, and snapshot k carries step k and the mode after
    that pass. The engine's ghost step counter grows by one per completed
    pass.
- `ThresholdManager` (threshold.dfy): the threshold controller, in the
  same style. `Scan` and `ThresholdStep` are specification functions, and
  its `SimulationManager` class holds the light table, the lane-to-detector
  map and the step bound. One iteration of its loop is the function `Pass`,
  and `Run` returns the states after each iteration, related by `Trace`.

Behaviour of the code that the model keeps, with the lemma that shows it:

- Among phases of equal pressure, the earliest entry of the phase table
  wins. The table is in ascending phase order. The phase currently shown is
  not favoured (`SelectIsFirstMaximum`, `TieSwitchesAway`).
- After a green hold, the threshold controller sets `current + 1` with no
  wrap-around. On a light's last phase the simulator rejects that call and
  the run ends (`StepLightRaises`).
- The threshold scan takes the link group of a phase from the
  controlled-link list at the phase's index. That list is indexed by
  signal, not by phase. A green phase whose index is past the end of the
  list raises (`ScanFaultMeans`).
- An empty lane name counts as "no lane" in the threshold scan
  (`FirstLane`).
- The adaptive step loop takes at most one command per step, however many
  are queued (`TakeCommandMeans`, `Trace`).
- Neither loop catches an error from the simulator or from a command. A
  rejected `setPhase`, a forced phase of None or a queued item that is not
  a JSON object ends the adaptive run with `crashed`, and no end marker is
  queued (`ServeLoop`, `PassMeans`).
- The threshold controller discovers the network once, right after the
  first simulator step. Later iterations keep the light order and the
  detector map that discovery built (`TraceDiscoversOnce`).

## Model

| member | source | states |
|---|---|---|
| Signals.LowerChar | backend/simulation_server.py:119 | an upper-case ASCII letter becomes its lower-case letter; every other character is unchanged |
| Signals.Lower | backend/simulation_server.py:119 | lower-casing keeps the length and lower-cases every character |
| Signals.LowerContains | backend/simulation_server.py:119-120 | the lower-cased state contains a letter iff the original contains it in either case |
| Signals.GreenStateByLetters | backend/simulation_server.py:119-122 | a phase is green iff its state has 'g' or 'G' and neither 'y' nor 'Y' |
| Signals.EnterOrderFresh | backend/simulation_server.py:114-135 | entering a duplicate-free list of lights into an empty order gives that list: the table's order is the network's order |
| Signals.EnterOrderMembers | backend/simulation_server.py:114-135 | entering keeps the old order as a prefix, and a light is in the result iff it was in the order or in the list |
| Traci.Engine.GetPhase | backend/simulation_server.py:82 | the phase a light shows is one of its phases |
| Traci.Engine.Advanced | backend/simulation_server.py:78 | a step installs the next observation of the script and its expected count; past the end no vehicle is expected; while vehicles are expected the remaining measure decreases |
| Traci.Engine.SimulationStep | backend/simulation_server.py:78 | the new simulator state is `Advanced` of the old one, and the ghost step counter grows by one |
| Traci.Engine.SetPhase | backend/simulation_server.py:147 | every call is logged; it is accepted iff the light exists and the index is one of its phases; only an accepted call changes the shown phase |
| PhaseDiscovery.IncomingMeans | backend/simulation_server.py:133-134 | a lane is among the incoming lanes of a link list iff some link comes from it |
| PhaseDiscovery.ServedUpToMeans | backend/simulation_server.py:129-134 | a lane is collected over the first k link indices iff one of them shows 'g' and has a link from that lane |
| PhaseDiscovery.ServedLanesMeans | backend/simulation_server.py:128-134 | lane l is served by a phase iff some link index below the state's length shows 'g' and has a link from l |
| PhaseDiscovery.NextPhase | backend/simulation_server.py:125 | the phase after g is (g + 1) mod n and is a phase index |
| PhaseDiscovery.ClassifyPhases | backend/simulation_server.py:116-122 | the green list is ascending and holds exactly the phases whose lower-cased state has 'g' and no 'y'; each gets an empty lane set |
| PhaseDiscovery.MapYellowPhases | backend/simulation_server.py:123-127 | a green phase maps to (g + 1) mod n iff that phase shows 'y'; no other keys |
| PhaseDiscovery.AddIncoming | backend/simulation_server.py:133-134 | the set of phase p gains exactly the incoming lanes of the links; no other set changes |
| PhaseDiscovery.AddGainsAt | backend/simulation_server.py:130-134 | at one link index, each listed green phase gains its lanes once and every other phase nothing |
| PhaseDiscovery.CollectAtLink | backend/simulation_server.py:130-134 | at link index k, each green phase showing 'g' at k gains the incoming lanes of links[k]; the key set is unchanged |
| PhaseDiscovery.CollectedAt | backend/simulation_server.py:129-134 | after k link indices a green phase holds exactly the lanes it serves through those indices |
| PhaseDiscovery.CollectLanes | backend/simulation_server.py:128-134 | after all link indices every green phase holds exactly ServedLanes of its state |
| PhaseDiscovery.ListOf | backend/simulation_server.py:136 | the list holds each lane of the set exactly once |
| PhaseDiscovery.AppendAscending | backend/simulation_server.py:136 | appending a larger phase keeps the table in ascending phase order |
| PhaseDiscovery.KeepServingPhases | backend/simulation_server.py:136 | the table keeps, in phase order, exactly the green phases with a non-empty lane set, each listing that set |
| PhaseDiscovery.DiscoverLight | backend/simulation_server.py:115-136 | the phase table and the yellow map meet their specifications |
| SimulationServer.PressureZero | backend/simulation_server.py:157 | a phase has pressure 0 iff none of its lanes has waited |
| SimulationServer.SelectIsFirstMaximum | backend/simulation_server.py:154-160 | the running maximum picks the first entry of maximal pressure; with an empty table, the current phase at -1 |
| SimulationServer.SelectBestPhase | backend/simulation_server.py:154-160 | the loop computes exactly that running maximum |
| SimulationServer.ControlStep | backend/simulation_server.py:142-170 | the tables never change; a silent call only advances the timer; a call that sets a phase resets it; YELLOW always has a target |
| SimulationServer.PhasesBelowMeans | backend/simulation_server.py:136 | every table entry names a phase below n iff the recursive check holds |
| SimulationServer.SelectInRange | backend/simulation_server.py:154-160 | the chosen phase is one of the light's phases |
| SimulationServer.ControlStepKeepsWellFormed | backend/simulation_server.py:142-170 | a call keeps the bookkeeping well-formed, and every phase it sets exists, so the simulator accepts it |
| SimulationServer.YellowDecision | backend/simulation_server.py:144-150 | in YELLOW a call sets the target iff the timer reaches 4, and then returns to GREEN; otherwise it stays YELLOW |
| SimulationServer.GreenDecision | backend/simulation_server.py:151-170 | past the minimum green, a call switches iff the first maximal entry is another phase with pressure; via the yellow phase (with that target) if mapped, else directly |
| SimulationServer.IdleKeepsPhase | backend/simulation_server.py:157-161 | when no lane of the table has waited, GREEN never switches |
| SimulationServer.TieSwitchesAway | backend/simulation_server.py:154-161 | with equal pressures, the call switches away from the shown phase to the earlier entry |
| SimulationServer.MinGreenHolds | backend/simulation_server.py:151-153 | GREEN sets no phase while the timer stays below 10, whatever the waiting times |
| SimulationServer.YellowRunsOut | backend/simulation_server.py:144-149 | a clearance with k calls to go is silent for k - 1 calls and then sets its target |
| SimulationServer.DiscoveredIsWellFormed | backend/simulation_server.py:135-139 | fresh bookkeeping is well-formed for the light's phase count |
| SimulationServer.AutoControlAt | backend/simulation_server.py:80-82 | over distinct lights, each listed light takes exactly one step from its own state; other lights are untouched |
| SimulationServer.AutoControlLog | backend/simulation_server.py:80-82 | the calls of an automatic pass are each light's own call, in table order |
| SimulationServer.SetAllPerLight | backend/simulation_server.py:74-75 | after the override, every listed light shows the forced phase; other lights keep theirs |
| SimulationServer.ManualCallsAre | backend/simulation_server.py:74-75 | the override issues one call per light, in table order, each with the forced phase |
| SimulationServer.SetEveryLight | backend/simulation_server.py:74-75 | it succeeds iff the phase exists for every light; then it logs those calls and sets those phases |
| SimulationServer.AllDiscoveredMeans | backend/simulation_server.py:114-139 | every listed light holds freshly discovered bookkeeping |
| SimulationServer.MembersMeans | backend/simulation_server.py:114 | the member set of the light list holds exactly its lights |
| SimulationServer.EnterKeepsOrder | backend/simulation_server.py:135 | (re)entering a light keeps the order list a duplicate-free listing of the table; a new light goes last |
| SimulationServer.TakeCommandMeans | backend/simulation_server.py:47-61 | at most one command is taken; set_mode lower-cases the mode and clears the target; force_phase acts only in "manual" mode with a new value, and then sets the pending flag; other commands change nothing |
| SimulationServer.OverrideMeans | backend/simulation_server.py:73-76 | without a pending change in manual mode nothing happens; with one it succeeds iff there are no lights or the value is a phase of every light, and then logs one call per light in table order and shows the forced phase on exactly those lights |
| SimulationServer.Pass | backend/simulation_server.py:70-86 | a completed pass keeps the light order and, while vehicles are expected, decreases the remaining measure |
| SimulationServer.PassMeans | backend/simulation_server.py:70-86 | a pass fails iff the command or the override raises; it takes one command and leaves no pending change; the simulator moves exactly one step; outside "auto" mode the lights keep their bookkeeping and only the override's calls are logged |
| SimulationServer.PassAutoLog | backend/simulation_server.py:78-82 | in "auto" mode the calls of a pass are each light's own state-machine call, from the phases shown after the simulator step, in table order |
| SimulationServer.TraceUnique | backend/simulation_server.py:69-86 | the step loop is determined by its start: two traces of the same length from the same state agree state by state and snapshot by snapshot |
| SimulationServer.TraceNoPending | backend/simulation_server.py:73-76 | a loop that starts with no pending forced phase never has one after a completed pass |
| SimulationServer.SimulationManager.constructor | backend/simulation_server.py:38-45 | no lights, mode "auto", no target, no pending change |
| SimulationServer.SimulationManager.ProcessCommands | backend/simulation_server.py:47-61 | the new controls are `TakeCommand` of the old ones; it fails iff the head of the queue is not a JSON object |
| SimulationServer.SimulationManager.EnterLight | backend/simulation_server.py:115-139 | the light gets freshly discovered bookkeeping; the other lights are unchanged; the order list gains the light at its end unless it is already listed |
| SimulationServer.SimulationManager.DiscoverNetworkAndPhases | backend/simulation_server.py:112-140 | every network light is discovered; the others are unchanged; the order list is extended in network order, and from an empty table it is the network's light list |
| SimulationServer.SimulationManager.ControlTrafficLightStateMachine | backend/simulation_server.py:142-170 | the light's bookkeeping, shown phase and the call log change exactly as ControlStep says |
| SimulationServer.SimulationManager.ApplyManualOverride | backend/simulation_server.py:73-76 | it fails iff `Override` fails; otherwise the lights, shown phases and log are `Override`'s result, and a pending change in manual mode is cleared |
| SimulationServer.SimulationManager.RunStateMachines | backend/simulation_server.py:80-82 | in "auto" mode every light takes one state-machine step in table order; otherwise nothing changes |
| SimulationServer.SimulationManager.Receive | backend/simulation_server.py:49 | commands that arrive are appended to the queue, in order |
| SimulationServer.SimulationManager.Step | backend/simulation_server.py:71-82 | it fails iff `Pass` fails from the old state; otherwise the new state is `Pass`'s result and the simulator has taken exactly one step |
| SimulationServer.SimulationManager.ServeLoop | backend/simulation_server.py:69-88 | the states after each completed pass follow `Trace` from the starting state, with one snapshot per pass; a crash is a pass that raised while vehicles were expected, and queues no end marker; otherwise the loop ends with no vehicle expected and one end marker |
| SimulationServer.SimulationManager.Run | backend/simulation_server.py:63-88 | the loop starts from the state discovery leaves; the items are one snapshot per completed pass, related to the states by `Trace`; a run that does not crash ends with no vehicle expected, in its last state, with one end marker; the simulator took one step per completed pass |
| ThresholdManager.InitialLight | backend/simulation_manager.py:40-45 | a light starts with no hold, timer 0 and its phase list |
| ThresholdManager.FirstLane | backend/simulation_manager.py:80-86 | the checked lane is the first link's incoming lane, and there is none for an empty group or an empty name |
| ThresholdManager.ScanTriggerMeans | backend/simulation_manager.py:71-96 | the scan triggers phase p iff p is the first green phase that fires, and every earlier green phase has a link group |
| ThresholdManager.ScanFaultMeans | backend/simulation_manager.py:71-81 | the scan raises iff a green phase past the end of the link list is reached before any trigger |
| ThresholdManager.ScanNoneMeans | backend/simulation_manager.py:71-90 | nothing triggers iff every green phase has a link group and none fires |
| ThresholdManager.ScanTriggersOwnPhase | backend/simulation_manager.py:71-92 | a triggered phase is a green phase of the light |
| ThresholdManager.StepKeepsCounting | backend/simulation_manager.py:54-96 | a call keeps "hold ⇒ 1..20 calls left, no hold ⇒ timer 0"; a call sets a phase only when it starts or ends a hold |
| ThresholdManager.GreenIgnoresDetectors | backend/simulation_manager.py:60-68 | during a hold the call does not look at links or detectors; it sets shown + 1 exactly on the hold's last call |
| ThresholdManager.IdleFollowsScan | backend/simulation_manager.py:70-96 | without a hold, a call raises iff the scan does, and sets a phase iff the scan triggers; it then starts a 20-call hold |
| ThresholdManager.HoldRunsOut | backend/simulation_manager.py:60-68 | a hold with k calls left is silent for k - 1 calls, then sets the next phase index and ends |
| ThresholdManager.TriggerThenHold | backend/simulation_manager.py:60-96 | a trigger sets its phase, the next 19 calls are silent, and the 20th sets the next phase index |
| ThresholdManager.StepLightRaises | backend/simulation_manager.py:62-92 | a call raises iff the scan faults, or a hold ends on the light's last phase; a triggered phase is always accepted |
| ThresholdManager.RoundKeepsOthers | backend/simulation_manager.py:24-25 | a round leaves every light it does not visit unchanged |
| ThresholdManager.RoundFailed | backend/simulation_manager.py:24-25 | once a call of a round raises, the round has failed |
| ThresholdManager.DetectorMapLast | backend/simulation_manager.py:48-51 | a lane maps to the last detector lying on it |
| ThresholdManager.DetectorMapElse | backend/simulation_manager.py:48-51 | a lane with no detector keeps its old entry, or stays unmapped |
| ThresholdManager.EnterAllAt | backend/simulation_manager.py:34-45 | every network light is in the table with initial bookkeeping; other lights are unchanged |
| ThresholdManager.EnterKeepsOrder | backend/simulation_manager.py:40 | (re)entering a light keeps the order list a duplicate-free listing of the table |
| ThresholdManager.Pass | backend/simulation_manager.py:18-27 | a completed iteration decreases the remaining measure while vehicles are expected |
| ThresholdManager.PassKeepsTables | backend/simulation_manager.py:21-25 | an iteration after the first changes neither the light order nor the detector map |
| ThresholdManager.TraceDiscoversOnce | backend/simulation_manager.py:17-27 | after any number of iterations the light order and the detector map are those built by the one discovery of the first iteration |
| ThresholdManager.SimulationManager.constructor | backend/simulation_manager.py:5-10 | the step bound is stored; the light table and the detector map are empty |
| ThresholdManager.SimulationManager.DiscoverNetwork | backend/simulation_manager.py:32-52 | the table is EnterAll of the network's lights, the detector map is DetectorMap of its detectors, and the order list is extended in network order (from an empty list it is the network's light list) |
| ThresholdManager.SimulationManager.EnterLights | backend/simulation_manager.py:34-45 | every network light is (re)entered with initial bookkeeping, in list order; the order list gains each new light at its end |
| ThresholdManager.SimulationManager.EnterLight | backend/simulation_manager.py:40-45 | the light gets initial bookkeeping, the others are unchanged, and the order list gains it at its end unless it is already listed |
| ThresholdManager.SimulationManager.MapDetectors | backend/simulation_manager.py:48-51 | the detector map is built in detector order, later detectors overwriting earlier ones |
| ThresholdManager.SimulationManager.FindTrigger | backend/simulation_manager.py:71-90 | the loop's result is the scan of the specification |
| ThresholdManager.SimulationManager.ControlTrafficLightThreshold | backend/simulation_manager.py:54-96 | the light's bookkeeping, shown phase and call log change exactly as one ThresholdStep says; it fails iff that step raises |
| ThresholdManager.SimulationManager.ControlRound | backend/simulation_manager.py:24-25 | every light takes one call in table order; it fails iff some call raises |
| ThresholdManager.SimulationManager.Prepare | backend/simulation_manager.py:19-22 | the new state is `Prepared`: one simulator step, then discovery on the first iteration only |
| ThresholdManager.SimulationManager.Step | backend/simulation_manager.py:19-27 | it fails iff `Pass` fails for that iteration; otherwise the new state is `Pass`'s result; the simulator takes one step either way |
| ThresholdManager.SimulationManager.Run | backend/simulation_manager.py:12-30 | the states after each iteration are related by `Trace`; a run that does not crash stops at the bound or when no vehicle is expected, in its last state; a crash is an iteration whose round raised; the simulator took one step per iteration started |

## Left out

- The websocket connection manager, the broadcast loop, the HTTP
  endpoints and the web app (`backend/simulation_server.py:24-34`, :177
  onwards). These are asynchronous network I/O.
- The command queue's producer thread. Commands arrive through the `Run`
  parameter `arrivals`: the commands that reach the queue before each step.
- `_gather_data` (`backend/simulation_server.py:90-110`). It is only
  simulator reads and JSON shaping. A snapshot keeps only the step number
  and the control mode.
- `_get_sumo_binary` in both files, `traci.start`, `traci.close` and every
  `print`. These are environment, process and console I/O.
- `backend/network_parser.py`, `backend/rl_agent.py`, `backend/runner.py`
  and `backend/app.py`. They are not part of this model.
- The simulator's own dynamics. Each step replays the next observation of
  a finite script. Waiting times are naturals, where SUMO reports real
  numbers.
- `Signals.Lower`: lower-cases ASCII letters only, not the full Unicode
  case mapping of Python's `str.lower`.
- `PhaseDiscovery.ListOf`: Python lists a set in an order the language
  leaves open. The model proves the contents and the absence of
  duplicates, not a particular order.
- Command values. A queued item is a `set_mode` with a string value, a
  `force_phase` with an optional integer, another JSON object, or a value
  that is not a JSON object (`Malformed`). A `set_mode` without a string
  value raises in `.lower()`, and that case is not modelled.
- Exceptions are not modelled as values. A run that raises ends with
  `crashed`. The raising cases are a rejected `setPhase`, the threshold
  scan's index error, a forced phase of None, and a queued item that is not
  a JSON object, on which `cmd.get` fails. The exception types and
  the teardown are not modelled.
- The threshold controller's stored `'lanes'` entry
  (`backend/simulation_manager.py:41`) and its `controlled_lanes` lookup
  (:78) are not modelled. Neither is ever read. The `step` argument of
  `_control_traffic_light_threshold` is not modelled either, since it only
  feeds a print.
- `SimulationServer.SimulationManager.Run`: the snapshot contents beyond
  step and mode are left out (see `_gather_data` above).
